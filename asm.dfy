/**
 * The assembly generator: it loads the IR (legalising it on the way), then
 * walks it once, allocating one of the seven registers t0..t6 to every
 * variable it meets and emitting one RISC-V line per instruction, up to and
 * including the first return.
 *
 * The allocator keeps a map from values to registers (`v2r`) and back
 * (`r2v`). When every register is occupied it reclaims one whose occupant is
 * not read by the current or any later instruction; the evicted value keeps
 * its (now stale) entry in `v2r`.
 *
 * `allocate` as written treats a stale entry as a current one (see
 * `AllocateAsWritten`); the class below re-binds a value whose entry is stale,
 * and with that the emitted code is proved to return what the IR returns.
 */
module Asm {
  import opened Wrappers
  import opened IR
  import opened Legalize

  /** The register file t0..t6, by number. */
  const RegCount: nat := 7

  type Reg = r: nat | r < 7

  function AllRegs(): set<Reg>
  {
    {0, 1, 2, 3, 4, 5, 6}
  }

  /** Emitted instructions; the trailing comment is the IR source instruction. */
  datatype Op =
    | AddI(rd: Reg, rs: Reg, imm: int)
    | AddR(rd: Reg, rs1: Reg, rs2: Reg)
    | SubI(rd: Reg, rs: Reg, imm: int)
    | SubR(rd: Reg, rs1: Reg, rs2: Reg)
    | MulR(rd: Reg, rs1: Reg, rs2: Reg)
    | Li(rd: Reg, imm: int)
    | MovR(rd: Reg, rs: Reg)
    | MvA0(rs: Reg)

  /** `.text`, or one instruction line with its comment. */
  datatype AsmLine = TextSection | Line(op: Op, source: Instruction)

  /**
   * The ways code generation stops early: no register can be reclaimed
   * ("No enough registers"), or the returned value is not in any register
   * (the source then dereferences a missing register).
   */
  datatype EmitError = OutOfRegisters(value: IRValue, index: nat) | ReturnNotInRegister(value: IRValue, index: nat)

  // ---------------------------------------------------------------------
  // Register state

  /** The lowest-numbered register from `k` on that holds nothing. */
  function FreeFrom(r2v: map<Reg, IRValue>, k: nat): (r: Option<Reg>)
    requires k <= RegCount
    ensures r.Some? ==> k <= r.value && r.value !in r2v && forall q: Reg :: k <= q < r.value ==> q in r2v
    ensures r.None? ==> forall q: Reg :: k <= q ==> q in r2v
    decreases RegCount - k
  {
    if k == RegCount then None
    else if k !in r2v then Some(k)
    else FreeFrom(r2v, k + 1)
  }

  /** First fit: the lowest-numbered free register in t0..t6 order. */
  function FirstFree(r2v: map<Reg, IRValue>): (r: Option<Reg>)
    ensures r.Some? ==> r.value !in r2v && forall q: Reg :: q < r.value ==> q in r2v
    ensures r.None? <==> forall q: Reg :: q in r2v
  {
    FreeFrom(r2v, 0)
  }

  /** `u` is read by the instruction at `idx` or by a later one. */
  predicate UsedFrom(insts: seq<Instruction>, idx: nat, u: IRValue)
  {
    exists j :: idx <= j < |insts| && u in Operands(insts[j])
  }

  /** Registers named (through `v2r`) by an operand of `insts[lo..hi]`. */
  function ProtectedIn(insts: seq<Instruction>, lo: nat, hi: nat, v2r: map<IRValue, Reg>): set<Reg>
  {
    set j, u | lo <= j < hi && j < |insts| && u in Operands(insts[j]) && u in v2r :: v2r[u]
  }

  /** The registers the eviction scan may reclaim at instruction `idx`. */
  function Reclaimable(insts: seq<Instruction>, idx: nat, v2r: map<IRValue, Reg>): set<Reg>
  {
    AllRegs() - ProtectedIn(insts, idx, |insts|, v2r)
  }

  /** `u` sits in the register `v2r` gives it (its entry is not stale). */
  predicate Held(v2r: map<IRValue, Reg>, r2v: map<Reg, IRValue>, u: IRValue)
  {
    u in v2r && v2r[u] in r2v && r2v[v2r[u]] == u
  }

  /** Every occupied register's occupant maps back to it. */
  predicate Consistent(v2r: map<IRValue, Reg>, r2v: map<Reg, IRValue>)
  {
    forall r :: r in r2v ==> r2v[r] in v2r && v2r[r2v[r]] == r
  }

  /** A register whose recorded occupant is still read at `idx` or later is never reclaimable. */
  lemma UsedProtected(insts: seq<Instruction>, idx: nat, v2r: map<IRValue, Reg>, u: IRValue)
    requires UsedFrom(insts, idx, u) && u in v2r
    ensures v2r[u] !in Reclaimable(insts, idx, v2r)
  {
    var j :| idx <= j < |insts| && u in Operands(insts[j]);
    assert v2r[u] in ProtectedIn(insts, idx, |insts|, v2r);
  }

  /** Reclaiming never evicts a value that is read at `idx` or later. */
  lemma ReclaimSparesLive(insts: seq<Instruction>, idx: nat, v2r: map<IRValue, Reg>, r2v: map<Reg, IRValue>, r: Reg)
    requires Consistent(v2r, r2v) && r in Reclaimable(insts, idx, v2r) && r in r2v
    ensures !UsedFrom(insts, idx, r2v[r])
  {
    if UsedFrom(insts, idx, r2v[r]) {
      UsedProtected(insts, idx, v2r, r2v[r]);
    }
  }

  /**
   * Binding a value that is not held to a free or reclaimable register keeps
   * the maps consistent, leaves every value that is read at `idx` or later
   * where it was, and holds no other value that was not held before.
   */
  lemma {:induction false} BindSpec(insts: seq<Instruction>, idx: nat, v2r: map<IRValue, Reg>, r2v: map<Reg, IRValue>,
                                    v: IRValue, r: Reg)
    requires Consistent(v2r, r2v) && !Held(v2r, r2v, v)
    requires r !in r2v || r in Reclaimable(insts, idx, v2r)
    ensures Consistent(v2r[v := r], r2v[r := v])
    ensures Held(v2r[v := r], r2v[r := v], v)
    ensures forall u :: UsedFrom(insts, idx, u) && Held(v2r, r2v, u) ==>
              Held(v2r[v := r], r2v[r := v], u) && v2r[v := r][u] == v2r[u]
    ensures forall u :: u != v && Held(v2r[v := r], r2v[r := v], u) ==>
              Held(v2r, r2v, u) && v2r[v := r][u] == v2r[u]
  {
    var v2r', r2v' := v2r[v := r], r2v[r := v];
    forall q | q in r2v' ensures r2v'[q] in v2r' && v2r'[r2v'[q]] == q {
      if q != r {
        assert r2v[q] != v;
      }
    }
    forall u | UsedFrom(insts, idx, u) && Held(v2r, r2v, u)
      ensures Held(v2r', r2v', u) && v2r'[u] == v2r[u]
    {
      if v2r[u] == r {
        UsedProtected(insts, idx, v2r, u);
      }
    }
  }

  // ---------------------------------------------------------------------
  // `allocate` as the source writes it

  /**
   * `allocate(v, idx)` as written: it returns at once for an immediate or
   * for any value that has an entry in `v2r`, current or stale; otherwise
   * it binds the first free register, or when none is free one the eviction
   * scan leaves; with none left it fails (`None`).
   */
  ghost function AllocateAsWritten(insts: seq<Instruction>, idx: nat, v2r: map<IRValue, Reg>,
                                   r2v: map<Reg, IRValue>, v: IRValue): (r: Option<(map<IRValue, Reg>, map<Reg, IRValue>)>)
    ensures v in v2r ==> r == Some((v2r, r2v))
    ensures v.Variable? && v !in v2r && r.Some? ==>
              r.value.0.Keys == v2r.Keys + {v} && r.value.1 == r2v[r.value.0[v] := v]
  {
    if v.Immediate? || v in v2r then Some((v2r, r2v))
    else match FirstFree(r2v)
      case Some(q) => Some((v2r[v := q], r2v[q := v]))
      case None =>
        var unused := Reclaimable(insts, idx, v2r);
        if unused == {} then None
        else
          var q :| q in unused;
          Some((v2r[v := q], r2v[q := v]))
  }

  /** The values `run()` hands to `allocate` for an instruction, in its order: operands, then the result. */
  function AllocationOrder(inst: Instruction): (vs: seq<IRValue>)
    ensures inst.Ret? ==> vs == []
    ensures !inst.Ret? ==> vs == Operands(inst) + [Variable(inst.result)]
  {
    match inst
    case Add(d, l, r) => [l, r, Variable(d)]
    case Sub(d, l, r) => [l, r, Variable(d)]
    case Mul(d, l, r) => [l, r, Variable(d)]
    case Mov(d, f) => [f, Variable(d)]
    case Ret(_) => []
  }

  /** `allocate` as written, called on each of `vs` in turn at instruction `idx`; `None` once one fails. */
  ghost function AllocateEachAsWritten(insts: seq<Instruction>, idx: nat, st: Option<(map<IRValue, Reg>, map<Reg, IRValue>)>,
                                       vs: seq<IRValue>): (r: Option<(map<IRValue, Reg>, map<Reg, IRValue>)>)
    ensures st.None? ==> r.None?
    ensures r.Some? ==> st.Some? && st.value.0.Keys <= r.value.0.Keys
    ensures r.Some? ==> forall u :: u in vs && u.Variable? ==> u in r.value.0
    decreases |vs|
  {
    if vs == [] || st.None? then st
    else AllocateEachAsWritten(insts, idx, AllocateAsWritten(insts, idx, st.value.0, st.value.1, vs[0]), vs[1..])
  }

  /** The maps after `run()`'s as-written allocations for instructions `0..n-1`, from empty maps. */
  ghost function AllocateRunAsWritten(insts: seq<Instruction>, n: nat): (r: Option<(map<IRValue, Reg>, map<Reg, IRValue>)>)
    requires n <= |insts|
    ensures n > 0 && AllocateRunAsWritten(insts, n - 1).None? ==> r.None?
    ensures r.Some? ==> forall k, u :: 0 <= k < n && u in AllocationOrder(insts[k]) && u.Variable? ==> u in r.value.0
  {
    if n == 0 then Some((map[], map[]))
    else AllocateEachAsWritten(insts, n - 1, AllocateRunAsWritten(insts, n - 1), AllocationOrder(insts[n - 1]))
  }

  /** An instruction `x = c` whose target has no entry: `x` takes the first free register. */
  lemma RunBindStep(insts: seq<Instruction>, k: nat, x: nat, c: int,
                    v2r: map<IRValue, Reg>, r2v: map<Reg, IRValue>, q: Reg)
    requires k < |insts| && insts[k] == Mov(Temp(x), Immediate(c))
    requires AllocateRunAsWritten(insts, k) == Some((v2r, r2v))
    requires X(x) !in v2r && FirstFree(r2v) == Some(q)
    ensures AllocateRunAsWritten(insts, k + 1) == Some((v2r[X(x) := q], r2v[q := X(x)]))
  {
    var vs := AllocationOrder(insts[k]);
    assert vs == [Immediate(c), X(x)] && vs[1..] == [X(x)] && vs[1..][1..] == [];
    var st := Some((v2r[X(x) := q], r2v[q := X(x)]));
    assert AllocateAsWritten(insts, k, v2r, r2v, X(x)) == st;
    assert AllocateEachAsWritten(insts, k, Some((v2r, r2v)), vs[1..]) == AllocateEachAsWritten(insts, k, st, []);
  }

  /** An instruction `x = c` whose target has no entry, with no register free: `x` takes the one reclaimable register. */
  lemma RunEvictStep(insts: seq<Instruction>, k: nat, x: nat, c: int,
                     v2r: map<IRValue, Reg>, r2v: map<Reg, IRValue>, q: Reg)
    requires k < |insts| && insts[k] == Mov(Temp(x), Immediate(c))
    requires AllocateRunAsWritten(insts, k) == Some((v2r, r2v))
    requires X(x) !in v2r && FirstFree(r2v) == None && Reclaimable(insts, k, v2r) == {q}
    ensures AllocateRunAsWritten(insts, k + 1) == Some((v2r[X(x) := q], r2v[q := X(x)]))
  {
    var vs := AllocationOrder(insts[k]);
    assert vs == [Immediate(c), X(x)] && vs[1..] == [X(x)] && vs[1..][1..] == [];
    var st := Some((v2r[X(x) := q], r2v[q := X(x)]));
    assert AllocateAsWritten(insts, k, v2r, r2v, X(x)) == st;
    assert AllocateEachAsWritten(insts, k, Some((v2r, r2v)), vs[1..]) == AllocateEachAsWritten(insts, k, st, []);
  }

  /** An instruction all of whose allocated values already have entries: nothing changes. */
  lemma RunKeepStep(insts: seq<Instruction>, k: nat, v2r: map<IRValue, Reg>, r2v: map<Reg, IRValue>)
    requires k < |insts| && AllocateRunAsWritten(insts, k) == Some((v2r, r2v))
    requires forall u :: u in AllocationOrder(insts[k]) ==> u in v2r
    ensures AllocateRunAsWritten(insts, k + 1) == Some((v2r, r2v))
  {
    var vs := AllocationOrder(insts[k]);
    var j := 0;
    while j < |vs|
      invariant j <= |vs|
      invariant AllocateEachAsWritten(insts, k, Some((v2r, r2v)), vs) ==
                AllocateEachAsWritten(insts, k, Some((v2r, r2v)), vs[j..])
    {
      assert vs[j..][1..] == vs[j + 1..];
      j := j + 1;
    }
  }

  /** Temporary `i` as an operand; the counterexample's variables are x0..x7. */
  function X(i: nat): IRValue { Variable(Temp(i)) }

  /**
   *   x0 = 1; x1 = 1; ... x7 = 1;                                   (indices 0..7)
   *   x1 = x1 + x2; x3 = x3 + x4; x5 = x5 + x6;  x0 = 2;  return x7; (indices 8..12)
   */
  function StaleProgram(): seq<Instruction>
  {
    seq(8, i requires 0 <= i < 8 => Mov(Temp(i), Immediate(1)))
    + [Add(Temp(1), X(1), X(2)), Add(Temp(3), X(3), X(4)), Add(Temp(5), X(5), X(6))]
    + StaleTail()
  }

  /** `StaleProgram`, instruction by instruction. */
  lemma StaleProgramAt()
    ensures |StaleProgram()| == 13
    ensures forall i: nat :: i < 8 ==> StaleProgram()[i] == Mov(Temp(i), Immediate(1))
    ensures StaleProgram()[8] == Add(Temp(1), X(1), X(2))
    ensures StaleProgram()[9] == Add(Temp(3), X(3), X(4))
    ensures StaleProgram()[10] == Add(Temp(5), X(5), X(6))
    ensures StaleProgram()[11] == StaleTail()[0] && StaleProgram()[12] == StaleTail()[1]
    ensures StaleProgram()[11..] == StaleTail()
  {
  }

  /** `loadIR` leaves the counterexample as it is: it is already legal, and its only return is last. */
  lemma StaleProgramNormal(next: nat)
    ensures Normalize(StaleProgram(), next) == (StaleProgram(), next)
  {
    StaleProgramAt();
    var p := StaleProgram();
    forall k | 0 <= k < |p| ensures Legal(p[k]) && (k < |p| - 1 ==> !p[k].Ret?) {
      if k < 8 {
        assert p[k] == Mov(Temp(k), Immediate(1));
      }
    }
    NormalFormFixed(p, next);
  }

  /** The maps once x0..x(n-1) have taken t0..t(n-1) in turn. */
  function Filled(n: nat): (r: (map<IRValue, Reg>, map<Reg, IRValue>))
    requires n <= 7
    ensures forall i: nat :: X(i) in r.0 <==> i < n
    ensures forall u :: u in r.0 ==> u == X(r.0[u])
    ensures forall q: Reg :: q in r.1 <==> q < n
    ensures forall q: Reg :: q < n ==> r.1[q] == X(q)
  {
    if n == 0 then (map[], map[])
    else
      var (v2r, r2v) := Filled(n - 1);
      (v2r[X(n - 1) := n - 1], r2v[n - 1 := X(n - 1)])
  }

  /** The moves `x0 = 1` .. `x6 = 1` fill t0..t6 in order. */
  lemma {:induction false} FilledRun(n: nat)
    requires n <= 7
    ensures AllocateRunAsWritten(StaleProgram(), n) == Some(Filled(n))
  {
    if n > 0 {
      FilledRun(n - 1);
      var (v2r, r2v) := Filled(n - 1);
      StaleProgramAt();
      assert (n - 1) as Reg !in r2v;
      RunBindStep(StaleProgram(), n - 1, n - 1, 1, v2r, r2v, n - 1);
    }
  }

  /**
   * The maps `run()` holds at instruction 11 of `StaleProgram`: t0..t6 fill
   * up with x0..x6; at index 7 only t0 is reclaimable (x0 is the one value
   * not read again), so x7 takes it and x0 keeps its stale entry t0.
   */
  function StaleState(): (map<IRValue, Reg>, map<Reg, IRValue>)
  {
    var (v2r, r2v) := Filled(7);
    (v2r[X(7) := 0], r2v[0 := X(7)])
  }

  /** At index 7, with x0..x6 in t0..t6, t1..t6 hold values read later. */
  lemma StaleProtectedRegs()
    ensures {1, 2, 3, 4, 5, 6} <= ProtectedIn(StaleProgram(), 7, 13, Filled(7).0)
  {
    var p := StaleProgram();
    StaleProgramAt();
    var v2r := Filled(7).0;
    assert X(1) in Operands(p[8]) && X(2) in Operands(p[8]);
    assert X(3) in Operands(p[9]) && X(4) in Operands(p[9]);
    assert X(5) in Operands(p[10]) && X(6) in Operands(p[10]);
    assert v2r[X(1)] == 1 && v2r[X(2)] == 2 && v2r[X(3)] == 3;
    assert v2r[X(4)] == 4 && v2r[X(5)] == 5 && v2r[X(6)] == 6;
  }

  /** x0 is not read from index 7 on. */
  lemma StaleDead()
    ensures forall j :: 7 <= j < 13 ==> X(0) !in Operands(StaleProgram()[j])
  {
    var p := StaleProgram();
    StaleProgramAt();
    assert Operands(p[7]) == [Immediate(1)];
    assert Operands(p[8]) == [X(1), X(2)];
    assert Operands(p[9]) == [X(3), X(4)];
    assert Operands(p[10]) == [X(5), X(6)];
    assert Operands(p[11]) == [Immediate(2)];
    assert Operands(p[12]) == [X(7)];
  }

  /** ... and nothing read from index 7 on has t0, x0's register. */
  lemma StaleUnprotected()
    ensures 0 !in ProtectedIn(StaleProgram(), 7, 13, Filled(7).0)
  {
    var v2r := Filled(7).0;
    StaleDead();
    forall j, u | 7 <= j < 13 && j < |StaleProgram()| && u in Operands(StaleProgram()[j]) && u in v2r
      ensures v2r[u] != 0
    {
      assert u == X(v2r[u]);
    }
  }

  /** So at index 7 only t0 is reclaimable. */
  lemma StaleProtected()
    ensures Reclaimable(StaleProgram(), 7, Filled(7).0) == {0}
  {
    StaleProgramAt();
    StaleProtectedRegs();
    StaleUnprotected();
  }

  /**
   * Folding the as-written `allocate` over instructions 0..10 of
   * `StaleProgram`, in `run()`'s order and from empty maps, gives
   * `StaleState`.
   */
  lemma StaleRun()
    ensures AllocateRunAsWritten(StaleProgram(), 11) == Some(StaleState())
  {
    var p := StaleProgram();
    StaleProgramAt();
    var (v2r, r2v) := Filled(7);
    FilledRun(7);
    StaleProtected();
    RunEvictStep(p, 7, 7, 1, v2r, r2v, 0);
    var (v2r', r2v') := StaleState();
    assert AllocationOrder(p[8]) == [X(1), X(2), X(1)];
    RunKeepStep(p, 8, v2r', r2v');
    assert AllocationOrder(p[9]) == [X(3), X(4), X(3)];
    RunKeepStep(p, 9, v2r', r2v');
    assert AllocationOrder(p[10]) == [X(5), X(6), X(5)];
    RunKeepStep(p, 10, v2r', r2v');
  }

  /** Instructions 11 and 12 of the counterexample: `x0 = 2; return x7;`. */
  function StaleTail(): seq<Instruction>
  {
    [Mov(Temp(0), Immediate(2)), Ret(X(7))]
  }

  /** The two lines `run()` emits for them in that state: `li t0, 2` and `mv a0, t0`. */
  function StaleLines(): seq<AsmLine>
  {
    [Line(Li(0, 2), StaleTail()[0]), Line(MvA0(0), StaleTail()[1])]
  }

  /** `StaleState` is consistent: every occupied register's occupant maps back to it. */
  lemma StaleConsistent()
    ensures Consistent(StaleState().0, StaleState().1)
  {
    var f := Filled(7);
    forall q | q in f.1 ensures f.1[q] in f.0 && f.0[f.1[q]] == q {
      assert f.1[q] == X(q) && X(q) == X(f.0[X(q)]);
    }
    StaleProtected();
    BindSpec(StaleProgram(), 7, f.0, f.1, X(7), 0);
  }

  /** In `StaleState` t0 is x7's, and x0 still names t0 though it is no longer there. */
  lemma StaleStateFacts()
    ensures var (v2r, r2v) := StaleState();
      && Consistent(v2r, r2v)
      && X(0) in v2r && v2r[X(0)] == 0 && !Held(v2r, r2v, X(0))
      && Held(v2r, r2v, X(7)) && v2r[X(7)] == 0
  {
    StaleConsistent();
    var f := Filled(7);
    assert f.0[X(0)] == 0;
  }

  /** The program's own meaning of its last two instructions: it returns x7. */
  lemma StaleTailReturns()
    ensures forall env: Env :: Exec(StaleTail(), env) == Some(Value(env, Temp(7)))
  {
    forall env: Env ensures Exec(StaleTail(), env) == Some(Value(env, Temp(7))) {
      assert StaleTail()[1..] == [Ret(X(7))];
    }
  }

  /** `li t0, 2; mv a0, t0` returns 2 from any registers. */
  lemma StaleLinesReturnTwo()
    ensures forall regs: Regs :: RunLines(Running(regs), StaleLines()) == Returned(2)
  {
    forall regs: Regs ensures RunLines(Running(regs), StaleLines()) == Returned(2) {
      RunLinesSnoc(Running(regs), [StaleLines()[0]], StaleLines()[1]);
      RunLinesSnoc(Running(regs), [], StaleLines()[0]);
      assert [] + [StaleLines()[0]] == [StaleLines()[0]];
      assert [StaleLines()[0]] + [StaleLines()[1]] == StaleLines();
    }
  }

  /** At instruction 11 the as-written `allocate(x0)` keeps x0's stale entry, and the lines lowered there use t0 for both. */
  lemma StaleLowering()
    ensures var (v2r, r2v) := StaleState();
      && AllocateAsWritten(StaleProgram(), 11, v2r, r2v, X(0)) == Some((v2r, r2v))
      && Allocated(StaleTail()[0], v2r) && Lower(StaleTail()[0], v2r) == StaleLines()[0].op
      && Allocated(StaleTail()[1], v2r) && Lower(StaleTail()[1], v2r) == StaleLines()[1].op
      && UsedFrom(StaleProgram(), 12, X(7))
  {
    StaleStateFacts();
    StaleProgramAt();
    var st := StaleState();
    assert StaleTail()[0] == Mov(Temp(0), Immediate(2)) && StaleTail()[1] == Ret(X(7));
    assert st.0[X(0)] == 0 && st.0[X(7)] == 0;
    assert X(7) in Operands(StaleProgram()[12]);
  }

  /**
   * `run()` reaches `StaleState` at instruction 11, where the as-written
   * `allocate(x0)` keeps the stale t0 for x0, so `li t0, 2` overwrites x7,
   * which the next line returns: the code returns 2 whatever the registers
   * held, where the program returns x7 (1 in `StaleProgram`). The
   * corrected allocator binds x0 to a register of its own instead.
   */
  lemma StaleEntryClobbersLiveValue()
    ensures forall next: nat :: Normalize(StaleProgram(), next) == (StaleProgram(), next)
    ensures AllocateRunAsWritten(StaleProgram(), 11) == Some(StaleState())
    ensures var (v2r, r2v) := StaleState();
      && Consistent(v2r, r2v)
      && AllocateAsWritten(StaleProgram(), 11, v2r, r2v, X(0)) == Some((v2r, r2v))
      && Allocated(StaleTail()[0], v2r) && Lower(StaleTail()[0], v2r) == StaleLines()[0].op
      && Allocated(StaleTail()[1], v2r) && Lower(StaleTail()[1], v2r) == StaleLines()[1].op
      && Held(v2r, r2v, X(7)) && v2r[X(7)] == 0
      && UsedFrom(StaleProgram(), 12, X(7))
      && !Held(v2r, r2v, X(0))
      && (forall regs: Regs :: RunLines(Running(regs), StaleLines()) == Returned(2))
      && (forall env: Env :: Exec(StaleProgram()[11..], env) == Some(Value(env, Temp(7))))
  {
    forall next: nat ensures Normalize(StaleProgram(), next) == (StaleProgram(), next) {
      StaleProgramNormal(next);
    }
    StaleRun();
    StaleStateFacts();
    StaleLowering();
    StaleLinesReturnTwo();
    StaleTailReturns();
    StaleProgramAt();
  }

  // ---------------------------------------------------------------------
  // Emission

  /**
   * Every variable the instruction names has a register, and so does the
   * returned value.
   */
  predicate Allocated(inst: Instruction, v2r: map<IRValue, Reg>)
  {
    Legal(inst) &&
    match inst
    case Add(d, l, r) => Variable(d) in v2r && l in v2r && (r.Variable? ==> r in v2r)
    case Sub(d, l, r) => Variable(d) in v2r && l in v2r && (r.Variable? ==> r in v2r)
    case Mul(d, l, r) => Variable(d) in v2r && l in v2r && r in v2r
    case Mov(d, f) => Variable(d) in v2r && (f.Variable? ==> f in v2r)
    case Ret(u) => u in v2r
  }

  /** The line for an instruction under a register assignment, with the mnemonic its operand shapes call for. */
  function Lower(inst: Instruction, v2r: map<IRValue, Reg>): (op: Op)
    requires Allocated(inst, v2r)
    ensures Mnemonic(inst, op)
  {
    match inst
    case Add(d, l, r) =>
      if r.Immediate? then AddI(v2r[Variable(d)], v2r[l], r.value)
      else AddR(v2r[Variable(d)], v2r[l], v2r[r])
    case Sub(d, l, r) =>
      if r.Immediate? then SubI(v2r[Variable(d)], v2r[l], r.value)
      else SubR(v2r[Variable(d)], v2r[l], v2r[r])
    case Mul(d, l, r) => MulR(v2r[Variable(d)], v2r[l], v2r[r])
    case Mov(d, f) =>
      if f.Immediate? then Li(v2r[Variable(d)], f.value) else MovR(v2r[Variable(d)], v2r[f])
    case Ret(u) => MvA0(v2r[u])
  }

  /**
   * The mnemonic an instruction must be emitted as: the immediate forms
   * (`addi`, `subi`, `li`) exactly when the last operand is a literal, with
   * that literal in the line.
   */
  predicate Mnemonic(inst: Instruction, op: Op)
  {
    match inst
    case Add(_, _, r) => if r.Immediate? then op.AddI? && op.imm == r.value else op.AddR?
    case Sub(_, _, r) => if r.Immediate? then op.SubI? && op.imm == r.value else op.SubR?
    case Mul(_, _, _) => op.MulR?
    case Mov(_, f) => if f.Immediate? then op.Li? && op.imm == f.value else op.MovR?
    case Ret(_) => op.MvA0?
  }

  /** Register `r` holds the value `u`. */
  predicate RegHolds(r2v: map<Reg, IRValue>, r: Reg, u: IRValue)
  {
    r in r2v && r2v[r] == u
  }

  /** Each register the line reads holds the operand it stands for. */
  predicate ReadsHeld(inst: Instruction, op: Op, r2v: map<Reg, IRValue>)
  {
    match op
    case AddI(_, rs, _) => inst.Add? && RegHolds(r2v, rs, inst.lhs)
    case SubI(_, rs, _) => inst.Sub? && RegHolds(r2v, rs, inst.lhs)
    case AddR(_, a, b) => inst.Add? && RegHolds(r2v, a, inst.lhs) && RegHolds(r2v, b, inst.rhs)
    case SubR(_, a, b) => inst.Sub? && RegHolds(r2v, a, inst.lhs) && RegHolds(r2v, b, inst.rhs)
    case MulR(_, a, b) => inst.Mul? && RegHolds(r2v, a, inst.lhs) && RegHolds(r2v, b, inst.rhs)
    case Li(_, _) => inst.Mov?
    case MovR(_, rs) => inst.Mov? && RegHolds(r2v, rs, inst.from)
    case MvA0(rs) => inst.Ret? && RegHolds(r2v, rs, inst.returnValue)
  }

  /**
   * When every variable operand sits in its register, the line reads each
   * operand from the register that holds it.
   */
  lemma LowerReadsHeld(inst: Instruction, v2r: map<IRValue, Reg>, r2v: map<Reg, IRValue>)
    requires Allocated(inst, v2r) && forall u :: u in v2r ==> u.Variable?
    requires forall u :: u in Operands(inst) && u.Variable? ==> Held(v2r, r2v, u)
    ensures ReadsHeld(inst, Lower(inst, v2r), r2v)
  {
    match inst
    case Add(d, l, r) =>
      assert l in Operands(inst) && r in Operands(inst);
    case Sub(d, l, r) =>
      assert l in Operands(inst) && r in Operands(inst);
    case Mul(d, l, r) =>
      assert l in Operands(inst) && r in Operands(inst);
    case Mov(d, f) =>
      assert f in Operands(inst);
    case Ret(u) =>
      assert u in Operands(inst);
  }

  /** How many lines a successful run emits: up to and including the first return. */
  function EmitLength(insts: seq<Instruction>): (n: nat)
    ensures n <= |insts|
    ensures HasRet(insts) ==> n == FirstRet(insts) + 1
    ensures !HasRet(insts) ==> n == |insts|
  {
    if HasRet(insts) then FirstRet(insts) + 1 else |insts|
  }

  // ---------------------------------------------------------------------
  // What the emitted code computes

  /** Register contents; a register never written reads as 0. */
  type Regs = map<Reg, int>

  function RegVal(regs: Regs, r: Reg): int
  {
    if r in regs then regs[r] else 0
  }

  /** A machine that is still running, or has put its result in `a0`. */
  datatype Machine = Running(regs: Regs) | Returned(a0: int)

  /** The effect of one emitted instruction. */
  function ExecOp(regs: Regs, op: Op): Machine
  {
    match op
    case AddI(rd, rs, imm) => Running(regs[rd := RegVal(regs, rs) + imm])
    case AddR(rd, a, b) => Running(regs[rd := RegVal(regs, a) + RegVal(regs, b)])
    case SubI(rd, rs, imm) => Running(regs[rd := RegVal(regs, rs) - imm])
    case SubR(rd, a, b) => Running(regs[rd := RegVal(regs, a) - RegVal(regs, b)])
    case MulR(rd, a, b) => Running(regs[rd := RegVal(regs, a) * RegVal(regs, b)])
    case Li(rd, imm) => Running(regs[rd := imm])
    case MovR(rd, rs) => Running(regs[rd := RegVal(regs, rs)])
    case MvA0(rs) => Returned(RegVal(regs, rs))
  }

  function ExecLine(m: Machine, line: AsmLine): Machine
  {
    if m.Returned? || line.TextSection? then m else ExecOp(m.regs, line.op)
  }

  /** The machine after running `lines` in order from `m`. */
  function RunLines(m: Machine, lines: seq<AsmLine>): Machine
  {
    if lines == [] then m else ExecLine(RunLines(m, lines[..|lines| - 1]), lines[|lines| - 1])
  }

  /** What a listing returns in `a0`, run from all-zero registers. */
  function AsmResult(lines: seq<AsmLine>): Option<int>
  {
    var m := RunLines(Running(map[]), lines);
    if m.Returned? then Some(m.a0) else None
  }

  /** Instruction `inst` writes the variable `u`. */
  predicate Writes(inst: Instruction, u: IRValue)
  {
    !inst.Ret? && u == Variable(inst.result)
  }

  /** Some instruction before index `i` writes `u`. */
  predicate DefinedBefore(insts: seq<Instruction>, i: nat, u: IRValue)
  {
    exists k :: 0 <= k < i && k < |insts| && Writes(insts[k], u)
  }

  /** Every variable an instruction reads was written by an earlier one. */
  predicate DefBeforeUse(insts: seq<Instruction>)
  {
    forall j, u :: 0 <= j < |insts| && u in Operands(insts[j]) && u.Variable? ==> DefinedBefore(insts, j, u)
  }

  /** Every value written before `i` and read from `i` on sits in its register. */
  ghost predicate LiveHeld(insts: seq<Instruction>, i: nat, v2r: map<IRValue, Reg>, r2v: map<Reg, IRValue>)
  {
    forall u :: DefinedBefore(insts, i, u) && UsedFrom(insts, i, u) ==> Held(v2r, r2v, u)
  }

  /** Every held value written before `i` has its IR value in its register. */
  ghost predicate RegsAgree(insts: seq<Instruction>, i: nat, v2r: map<IRValue, Reg>, r2v: map<Reg, IRValue>, regs: Regs, env: Env)
  {
    forall u :: DefinedBefore(insts, i, u) && Held(v2r, r2v, u) ==> RegVal(regs, v2r[u]) == Read(env, u)
  }

  /**
   * With each variable operand's value in its register, the line computes
   * what the instruction computes: the destination's register receives the
   * destination's new value, or `a0` receives the returned value.
   */
  lemma LowerComputes(inst: Instruction, v2r: map<IRValue, Reg>, regs: Regs, env: Env)
    requires Allocated(inst, v2r) && forall u :: u in v2r ==> u.Variable?
    requires forall u :: u in Operands(inst) && u.Variable? ==> RegVal(regs, v2r[u]) == Read(env, u)
    ensures inst.Ret? ==> ExecOp(regs, Lower(inst, v2r)) == Returned(Read(env, inst.returnValue))
    ensures !inst.Ret? ==>
      ExecOp(regs, Lower(inst, v2r)) ==
        Running(regs[v2r[Variable(inst.result)] := Read(Step(env, inst), Variable(inst.result))])
  {
    match inst
    case Add(d, l, r) =>
      assert l in Operands(inst) && r in Operands(inst);
    case Sub(d, l, r) =>
      assert l in Operands(inst) && r in Operands(inst);
    case Mul(d, l, r) =>
      assert l in Operands(inst) && r in Operands(inst);
    case Mov(d, f) =>
      assert f in Operands(inst);
    case Ret(u) =>
      assert u in Operands(inst);
  }

  /**
   * One non-return line emitted at `i` (maps `v2r0`/`r2v0` before its
   * allocations, `v2r`/`r2v` after): live values stay in their registers,
   * and for a program that writes before it reads, every held value still
   * has its IR value in its register.
   */
  lemma {:induction false} EmitStep(insts: seq<Instruction>, i: nat, v2r0: map<IRValue, Reg>, r2v0: map<Reg, IRValue>,
                                    v2r: map<IRValue, Reg>, r2v: map<Reg, IRValue>, regs: Regs, env: Env)
    requires i < |insts| && !insts[i].Ret?
    requires Consistent(v2r, r2v) && Allocated(insts[i], v2r) && forall u :: u in v2r ==> u.Variable?
    requires Held(v2r, r2v, Variable(insts[i].result))
    requires LiveHeld(insts, i, v2r0, r2v0)
    requires forall u :: UsedFrom(insts, i, u) && Held(v2r0, r2v0, u) ==> Held(v2r, r2v, u) && v2r[u] == v2r0[u]
    requires forall u :: Held(v2r, r2v, u) && u !in Operands(insts[i]) && u != Variable(insts[i].result) ==>
               Held(v2r0, r2v0, u) && v2r[u] == v2r0[u]
    ensures LiveHeld(insts, i + 1, v2r, r2v)
    ensures DefBeforeUse(insts) && RegsAgree(insts, i, v2r0, r2v0, regs, env) ==>
      var m := ExecOp(regs, Lower(insts[i], v2r));
      m.Running? && RegsAgree(insts, i + 1, v2r, r2v, m.regs, Step(env, insts[i]))
  {
    var inst := insts[i];
    var d := Variable(inst.result);
    forall u | DefinedBefore(insts, i + 1, u) && u != d ensures DefinedBefore(insts, i, u) {
      var k :| 0 <= k < i + 1 && k < |insts| && Writes(insts[k], u);
    }
    forall u | u in Operands(inst) ensures UsedFrom(insts, i, u) {
    }
    forall u | DefinedBefore(insts, i + 1, u) && UsedFrom(insts, i + 1, u) ensures Held(v2r, r2v, u) {
      if u != d {
        var j :| i + 1 <= j < |insts| && u in Operands(insts[j]);
        assert UsedFrom(insts, i, u);
      }
    }
    if DefBeforeUse(insts) && RegsAgree(insts, i, v2r0, r2v0, regs, env) {
      forall u | u in Operands(inst) && u.Variable? ensures RegVal(regs, v2r[u]) == Read(env, u) {
        assert DefinedBefore(insts, i, u);
      }
      LowerComputes(inst, v2r, regs, env);
      var value := Read(Step(env, inst), d);
      var regs' := regs[v2r[d] := value];
      var env' := Step(env, inst);
      forall u | DefinedBefore(insts, i + 1, u) && Held(v2r, r2v, u)
        ensures RegVal(regs', v2r[u]) == Read(env', u)
      {
        if u != d {
          assert Held(v2r0, r2v0, u) && v2r[u] == v2r0[u] by {
            if u in Operands(inst) {
              assert DefinedBefore(insts, i, u);
            }
          }
          assert v2r[u] != v2r[d];
          assert u.v != inst.result;
        }
      }
    }
  }

  class AssemblyGenerator {
    var insts: seq<Instruction>
    var v2r: map<IRValue, Reg>
    var r2v: map<Reg, IRValue>
    var asm: seq<AsmLine>
    /** Next free temporary number (the source's global temporary counter). */
    var nextTemp: nat

    /** Loaded IR is legal; the maps agree; only variables get registers. */
    ghost predicate Valid()
      reads this
    {
      && (forall k :: 0 <= k < |insts| ==> Legal(insts[k]))
      && Consistent(v2r, r2v)
      && (forall u :: u in v2r ==> u.Variable?)
    }

    constructor (nextTemp: nat)
      ensures Valid()
      ensures insts == [] && v2r == map[] && r2v == map[] && asm == [TextSection]
      ensures this.nextTemp == nextTemp
    {
      insts := [];
      v2r := map[];
      r2v := map[];
      asm := [TextSection];
      this.nextTemp := nextTemp;
    }

    /**
     * `loadIR`: appends the legalised form of `origin`, up to and including
     * its first return, to `insts`.
     */
    method LoadIR(origin: seq<Instruction>)
      requires Valid()
      modifies this`insts, this`nextTemp
      ensures Valid()
      ensures insts == old(insts) + Normalize(origin, old(nextTemp)).0
      ensures nextTemp == Normalize(origin, old(nextTemp)).1
    {
      ghost var n0 := nextTemp;
      var k := 0;
      while k < |origin|
        invariant 0 <= k <= |origin|
        invariant old(insts) + Normalize(origin, n0).0 == insts + Normalize(origin[k..], nextTemp).0
        invariant Normalize(origin, n0).1 == Normalize(origin[k..], nextTemp).1
        invariant Valid()
        decreases |origin| - k
      {
        var inst := origin[k];
        assert origin[k..][0] == inst && origin[k..][1..] == origin[k + 1..];
        if inst.Ret? {
          insts := insts + [inst];
          return;
        }
        ghost var before := insts;
        ghost var rest := Normalize(origin[k + 1..], LegalizeOne(inst, nextTemp).1).0;
        LoadOne(inst);
        assert before + (insts[|before|..] + rest) == insts + rest;
        k := k + 1;
      }
    }

    /** One non-return instruction of `loadIR`, rewritten and appended. */
    method LoadOne(inst: Instruction)
      requires Valid() && !inst.Ret?
      modifies this`insts, this`nextTemp
      ensures Valid()
      ensures insts == old(insts) + LegalizeOne(inst, old(nextTemp)).0
      ensures nextTemp == LegalizeOne(inst, old(nextTemp)).1
    {
      LegalizeOneShape(inst, nextTemp);
      match inst {
        case Mov(_, _) =>
          insts := insts + [inst];
        case Add(d, l, r) =>
          if l.Immediate? && r.Immediate? {
            insts := insts + [Mov(d, Immediate(l.value + r.value))];
          } else if l.Immediate? {
            insts := insts + [Add(d, r, l)];
          } else {
            insts := insts + [inst];
          }
        case Sub(d, l, r) =>
          if l.Immediate? && r.Immediate? {
            insts := insts + [Mov(d, Immediate(l.value - r.value))];
          } else if l.Immediate? {
            var temp := Temp(nextTemp);
            nextTemp := nextTemp + 1;
            insts := insts + [Mov(temp, l)];
            insts := insts + [Sub(d, Variable(temp), r)];
          } else {
            insts := insts + [inst];
          }
        case Mul(d, l, r) =>
          if l.Immediate? && r.Immediate? {
            insts := insts + [Mov(d, Immediate(l.value * r.value))];
          } else if l.Immediate? {
            var temp := Temp(nextTemp);
            nextTemp := nextTemp + 1;
            insts := insts + [Mov(temp, l)];
            insts := insts + [Mul(d, Variable(temp), r)];
          } else if r.Immediate? {
            var temp := Temp(nextTemp);
            nextTemp := nextTemp + 1;
            insts := insts + [Mov(temp, r)];
            insts := insts + [Mul(d, l, Variable(temp))];
          } else {
            insts := insts + [inst];
          }
      }
    }

    /**
     * The eviction scan: every register, less those that `v2r` gives to an
     * operand of `insts[idx..]`.
     */
    method Unused(idx: nat) returns (unused: set<Reg>)
      ensures unused == Reclaimable(insts, idx, v2r)
    {
      unused := AllRegs();
      var i := idx;
      while i < |insts|
        invariant idx <= i && (i <= |insts| || i == idx)
        invariant unused == AllRegs() - ProtectedIn(insts, idx, i, v2r)
        decreases |insts| - i
      {
        var ops := Operands(insts[i]);
        var k := 0;
        while k < |ops|
          invariant 0 <= k <= |ops|
          invariant unused == AllRegs() - ProtectedIn(insts, idx, i, v2r) -
                              (set m | 0 <= m < k && ops[m] in v2r :: v2r[ops[m]])
        {
          if ops[k] in v2r {
            unused := unused - {v2r[ops[k]]};
          }
          k := k + 1;
        }
        ProtectedStep(insts, idx, i, v2r);
        i := i + 1;
      }
      assert ProtectedIn(insts, idx, i, v2r) == ProtectedIn(insts, idx, |insts|, v2r);
    }

    /**
     * `allocate(v, idx)`: immediates and values already sitting in their
     * register are left alone; otherwise `v` takes the first free register,
     * or, when all seven are occupied, any reclaimable one. Fails when none
     * is reclaimable. Unlike the source, a value whose `v2r` entry is stale
     * is bound afresh (see `AllocateAsWritten`).
     */
    method Allocate(v: IRValue, idx: nat) returns (ok: bool)
      requires Valid()
      modifies this`v2r, this`r2v
      ensures Valid()
      ensures old(v2r).Keys <= v2r.Keys
      ensures v.Immediate? || old(Held(v2r, r2v, v)) ==> ok && v2r == old(v2r) && r2v == old(r2v)
      ensures v.Variable? && !old(Held(v2r, r2v, v)) && FirstFree(old(r2v)).Some? ==>
                var r := FirstFree(old(r2v)).value;
                ok && v2r == old(v2r)[v := r] && r2v == old(r2v)[r := v]
      ensures v.Variable? && !old(Held(v2r, r2v, v)) && FirstFree(old(r2v)).None? ==>
                (ok <==> Reclaimable(insts, idx, old(v2r)) != {}) &&
                (ok ==> exists r :: r in Reclaimable(insts, idx, old(v2r)) &&
                                    v2r == old(v2r)[v := r] && r2v == old(r2v)[r := v]) &&
                (!ok ==> v2r == old(v2r) && r2v == old(r2v))
      ensures ok && v.Variable? ==> Held(v2r, r2v, v)
      ensures forall u :: UsedFrom(insts, idx, u) && old(Held(v2r, r2v, u)) ==>
                Held(v2r, r2v, u) && v2r[u] == old(v2r)[u]
      ensures forall u :: u != v && Held(v2r, r2v, u) ==> old(Held(v2r, r2v, u)) && v2r[u] == old(v2r)[u]
    {
      if v.Immediate? {
        return true;
      }
      if v in v2r && v2r[v] in r2v && r2v[v2r[v]] == v {
        return true;
      }
      var reg := 0;
      while reg < RegCount
        invariant 0 <= reg <= RegCount
        invariant FirstFree(r2v) == FreeFrom(r2v, reg)
        decreases RegCount - reg
      {
        if reg !in r2v {
          BindSpec(insts, idx, v2r, r2v, v, reg);
          r2v := r2v[reg := v];
          v2r := v2r[v := reg];
          return true;
        }
        reg := reg + 1;
      }
      var unused := Unused(idx);
      if unused != {} {
        var touse :| touse in unused;
        BindSpec(insts, idx, v2r, r2v, v, touse);
        r2v := r2v[touse := v];
        v2r := v2r[v := touse];
        return true;
      }
      return false;
    }

    /**
     * One step of `run()`: allocates lhs, rhs and destination at index `i`
     * (a move: source, then destination), then appends the line for
     * `insts[i]`. Values read at `i` or later stay in their registers; the
     * operands and the destination end up in theirs.
     */
    method EmitOne(i: nat) returns (error: Option<EmitError>)
      requires Valid() && i < |insts|
      modifies this`v2r, this`r2v, this`asm
      ensures Valid()
      ensures error.None? ==> Allocated(insts[i], v2r) && asm == old(asm) + [Line(Lower(insts[i], v2r), insts[i])]
      ensures error.Some? ==> asm == old(asm) && error.value.index == i
      ensures error.Some? && error.value.OutOfRegisters? ==>
                !insts[i].Ret? && (error.value.value in Operands(insts[i]) || error.value.value == Variable(insts[i].result))
      ensures (error.Some? && error.value.ReturnNotInRegister?) <==> (insts[i].Ret? && insts[i].returnValue !in old(v2r))
      ensures insts[i].Ret? ==> v2r == old(v2r) && r2v == old(r2v)
      ensures error.None? && !insts[i].Ret? ==>
                ReadsHeld(insts[i], Lower(insts[i], v2r), r2v) && Held(v2r, r2v, Variable(insts[i].result))
      ensures forall u :: UsedFrom(insts, i, u) && old(Held(v2r, r2v, u)) ==>
                Held(v2r, r2v, u) && v2r[u] == old(v2r)[u]
      ensures !insts[i].Ret? ==>
                forall u :: Held(v2r, r2v, u) && u !in Operands(insts[i]) && u != Variable(insts[i].result) ==>
                  old(Held(v2r, r2v, u)) && v2r[u] == old(v2r)[u]
    {
      var inst := insts[i];
      match inst {
        case Ret(u) =>
          if u !in v2r {
            return Some(ReturnNotInRegister(u, i));
          }
          error := None;
          asm := asm + [Line(Lower(inst, v2r), inst)];
        case Mov(d, f) =>
          assert f in Operands(inst);
          var ok := Allocate(f, i);
          if !ok { return Some(OutOfRegisters(f, i)); }
          ok := Allocate(Variable(d), i);
          if !ok { return Some(OutOfRegisters(Variable(d), i)); }
          LowerReadsHeld(inst, v2r, r2v);
          error := None;
          asm := asm + [Line(Lower(inst, v2r), inst)];
        case Add(d, l, r) =>
          error := AllocateBinary(i, d, l, r);
          if error.Some? { return; }
          LowerReadsHeld(inst, v2r, r2v);
          asm := asm + [Line(Lower(inst, v2r), inst)];
        case Sub(d, l, r) =>
          error := AllocateBinary(i, d, l, r);
          if error.Some? { return; }
          LowerReadsHeld(inst, v2r, r2v);
          asm := asm + [Line(Lower(inst, v2r), inst)];
        case Mul(d, l, r) =>
          error := AllocateBinary(i, d, l, r);
          if error.Some? { return; }
          LowerReadsHeld(inst, v2r, r2v);
          asm := asm + [Line(Lower(inst, v2r), inst)];
      }
    }

    /** Allocation for a binary instruction: lhs, rhs, then the destination. */
    method AllocateBinary(i: nat, d: Var, l: IRValue, r: IRValue) returns (error: Option<EmitError>)
      requires Valid() && i < |insts| && IsBinary(insts[i])
      requires insts[i].result == d && insts[i].lhs == l && insts[i].rhs == r
      modifies this`v2r, this`r2v
      ensures Valid()
      ensures error.None? ==> Allocated(insts[i], v2r)
      ensures error.None? ==> forall u :: u in Operands(insts[i]) && u.Variable? ==> Held(v2r, r2v, u)
      ensures error.None? ==> Held(v2r, r2v, Variable(d))
      ensures error.Some? ==> (error.value.OutOfRegisters? && error.value.index == i &&
                               error.value.value in {l, r, Variable(d)})
      ensures forall u :: UsedFrom(insts, i, u) && old(Held(v2r, r2v, u)) ==>
                Held(v2r, r2v, u) && v2r[u] == old(v2r)[u]
      ensures forall u :: Held(v2r, r2v, u) && u != l && u != r && u != Variable(d) ==>
                old(Held(v2r, r2v, u)) && v2r[u] == old(v2r)[u]
    {
      assert l in Operands(insts[i]) && r in Operands(insts[i]);
      assert UsedFrom(insts, i, l) && UsedFrom(insts, i, r);
      var ok := Allocate(l, i);
      if !ok { return Some(OutOfRegisters(l, i)); }
      ok := Allocate(r, i);
      if !ok { return Some(OutOfRegisters(r, i)); }
      ok := Allocate(Variable(d), i);
      if !ok { return Some(OutOfRegisters(Variable(d), i)); }
      error := None;
    }

    /**
     * `run()`: emits one line per instruction, in order, and stops after the
     * line of the first return. Each line has the mnemonic its instruction's
     * operand shapes call for. When the IR writes every variable before
     * reading it and no allocation fails, the emitted code returns in `a0`
     * what the IR returns.
     */
    method Run() returns (error: Option<EmitError>)
      requires Valid()
      modifies this`v2r, this`r2v, this`asm
      ensures Valid()
      ensures |asm| >= |old(asm)| && asm[..|old(asm)|] == old(asm)
      ensures error.None? ==> |asm| == |old(asm)| + EmitLength(insts)
      ensures error.Some? ==> error.value.index < EmitLength(insts) && |asm| == |old(asm)| + error.value.index
      ensures EmittedLines(asm, |old(asm)|, insts)
      ensures error.None? && DefBeforeUse(insts) ==> AsmResult(asm[|old(asm)|..]) == Exec(insts, map[])
    {
      ghost var base := |asm|;
      ghost var regs: Regs := map[];
      ghost var env: Env := map[];
      var i := 0;
      assert asm[base..] == [];
      while i < |insts|
        invariant Valid()
        invariant 0 <= i <= |insts|
        invariant NoRetBefore(insts, i)
        invariant |asm| == base + i && asm[..base] == old(asm)
        invariant EmittedLines(asm, base, insts)
        invariant RunLines(Running(map[]), asm[base..]) == Running(regs)
        invariant Exec(insts, map[]) == Exec(insts[i..], env)
        invariant LiveHeld(insts, i, v2r, r2v)
        invariant DefBeforeUse(insts) ==> RegsAgree(insts, i, v2r, r2v, regs, env)
        decreases |insts| - i
      {
        EmitLengthAt(insts, i);
        error, regs, env := Advance(i, base, regs, env);
        if error.Some? || insts[i].Ret? {
          return;
        }
        i := i + 1;
      }
      EmitLengthAt(insts, i);
      error := None;
    }

    /**
     * One iteration of `run()`'s loop: the line for `insts[i]`, and how the
     * emitted code so far keeps computing what the IR computes.
     */
    method Advance(i: nat, ghost base: nat, ghost regs: Regs, ghost env: Env)
      returns (error: Option<EmitError>, ghost regs': Regs, ghost env': Env)
      requires Valid() && i < |insts| && |asm| == base + i
      requires EmittedLines(asm, base, insts)
      requires RunLines(Running(map[]), asm[base..]) == Running(regs)
      requires LiveHeld(insts, i, v2r, r2v)
      requires DefBeforeUse(insts) ==> RegsAgree(insts, i, v2r, r2v, regs, env)
      modifies this`v2r, this`r2v, this`asm
      ensures Valid()
      ensures error.Some? ==> asm == old(asm) && error.value.index == i
      ensures error.None? ==> |asm| == |old(asm)| + 1 && asm[..|old(asm)|] == old(asm)
      ensures error.None? ==> EmittedLines(asm, base, insts)
      ensures error.None? && insts[i].Ret? && DefBeforeUse(insts) ==> AsmResult(asm[base..]) == Exec(insts[i..], env)
      ensures error.None? && !insts[i].Ret? ==>
                && RunLines(Running(map[]), asm[base..]) == Running(regs')
                && Exec(insts[i..], env) == Exec(insts[i + 1..], env')
                && LiveHeld(insts, i + 1, v2r, r2v)
                && (DefBeforeUse(insts) ==> RegsAgree(insts, i + 1, v2r, r2v, regs', env'))
    {
      regs', env' := regs, env;
      ghost var before := asm;
      ghost var v2r0, r2v0 := v2r, r2v;
      error := EmitOne(i);
      if error.Some? {
        return;
      }
      var line := asm[|asm| - 1];
      EmittedSnoc(before, base, insts, line);
      assert asm[base..] == before[base..] + [line];
      if insts[i].Ret? {
        if DefBeforeUse(insts) {
          ReturnStep(insts, i, v2r, r2v, regs, env, before[base..]);
          assert insts[i..][0] == insts[i];
        }
        return;
      }
      ContinueStep(insts, i, v2r0, r2v0, v2r, r2v, regs, env, before[base..]);
      regs' := ExecOp(regs, Lower(insts[i], v2r)).regs;
      env' := Step(env, insts[i]);
    }
  }

  /**
   * The line of a reached return puts in `a0` what the IR returns from
   * there, once every live value has its IR value in its register.
   */
  lemma ReturnStep(insts: seq<Instruction>, i: nat, v2r: map<IRValue, Reg>, r2v: map<Reg, IRValue>,
                   regs: Regs, env: Env, lines: seq<AsmLine>)
    requires i < |insts| && insts[i].Ret? && Allocated(insts[i], v2r) && forall u :: u in v2r ==> u.Variable?
    requires DefBeforeUse(insts) && LiveHeld(insts, i, v2r, r2v) && RegsAgree(insts, i, v2r, r2v, regs, env)
    requires RunLines(Running(map[]), lines) == Running(regs)
    ensures AsmResult(lines + [Line(Lower(insts[i], v2r), insts[i])]) == Some(Read(env, insts[i].returnValue))
  {
    var u := insts[i].returnValue;
    assert u in Operands(insts[i]);
    assert DefinedBefore(insts, i, u) && UsedFrom(insts, i, u);
    LowerComputes(insts[i], v2r, regs, env);
    RunLinesSnoc(Running(map[]), lines, Line(Lower(insts[i], v2r), insts[i]));
  }

  /**
   * The line of a non-return instruction: the machine keeps running, the IR
   * continues with the next instruction, and `EmitStep`'s invariants carry
   * over.
   */
  lemma ContinueStep(insts: seq<Instruction>, i: nat, v2r0: map<IRValue, Reg>, r2v0: map<Reg, IRValue>,
                     v2r: map<IRValue, Reg>, r2v: map<Reg, IRValue>, regs: Regs, env: Env, lines: seq<AsmLine>)
    requires i < |insts| && !insts[i].Ret?
    requires Consistent(v2r, r2v) && Allocated(insts[i], v2r) && forall u :: u in v2r ==> u.Variable?
    requires Held(v2r, r2v, Variable(insts[i].result))
    requires LiveHeld(insts, i, v2r0, r2v0)
    requires forall u :: UsedFrom(insts, i, u) && Held(v2r0, r2v0, u) ==> Held(v2r, r2v, u) && v2r[u] == v2r0[u]
    requires forall u :: Held(v2r, r2v, u) && u !in Operands(insts[i]) && u != Variable(insts[i].result) ==>
               Held(v2r0, r2v0, u) && v2r[u] == v2r0[u]
    requires RunLines(Running(map[]), lines) == Running(regs)
    ensures ExecOp(regs, Lower(insts[i], v2r)).Running?
    ensures RunLines(Running(map[]), lines + [Line(Lower(insts[i], v2r), insts[i])]) ==
            Running(ExecOp(regs, Lower(insts[i], v2r)).regs)
    ensures Exec(insts[i..], env) == Exec(insts[i + 1..], Step(env, insts[i]))
    ensures LiveHeld(insts, i + 1, v2r, r2v)
    ensures DefBeforeUse(insts) && RegsAgree(insts, i, v2r0, r2v0, regs, env) ==>
      RegsAgree(insts, i + 1, v2r, r2v, ExecOp(regs, Lower(insts[i], v2r)).regs, Step(env, insts[i]))
  {
    EmitStep(insts, i, v2r0, r2v0, v2r, r2v, regs, env);
    RunLinesSnoc(Running(map[]), lines, Line(Lower(insts[i], v2r), insts[i]));
    assert insts[i..][0] == insts[i] && insts[i..][1..] == insts[i + 1..];
  }

  /** No return among the first `i` instructions. */
  predicate NoRetBefore(insts: seq<Instruction>, i: nat)
  {
    forall j :: 0 <= j < i && j < |insts| ==> !insts[j].Ret?
  }

  /** With no return before `i`, the run's lines reach past `i`, and end at a return at `i`. */
  lemma EmitLengthAt(insts: seq<Instruction>, i: nat)
    requires i <= |insts| && NoRetBefore(insts, i)
    ensures i < |insts| ==> i < EmitLength(insts)
    ensures i < |insts| && insts[i].Ret? ==> EmitLength(insts) == i + 1
    ensures i == |insts| ==> EmitLength(insts) == |insts|
  {
    if HasRet(insts) {
      var k := FirstRet(insts);
      assert i <= k;
    }
  }

  /** Running one more line is one more step of the machine. */
  lemma RunLinesSnoc(m: Machine, lines: seq<AsmLine>, line: AsmLine)
    ensures RunLines(m, lines + [line]) == ExecLine(RunLines(m, lines), line)
  {
    assert (lines + [line])[..|lines|] == lines;
  }

  /** `asm[base..]` holds lines for a prefix of `insts`, in order, each with its mnemonic. */
  predicate EmittedLines(asm: seq<AsmLine>, base: nat, insts: seq<Instruction>)
  {
    base <= |asm| <= base + |insts| &&
    forall k :: base <= k < |asm| ==>
      asm[k].Line? && asm[k].source == insts[k - base] && Mnemonic(insts[k - base], asm[k].op)
  }

  lemma EmittedSnoc(asm: seq<AsmLine>, base: nat, insts: seq<Instruction>, line: AsmLine)
    requires EmittedLines(asm, base, insts) && |asm| < base + |insts|
    requires line.Line? && line.source == insts[|asm| - base] && Mnemonic(insts[|asm| - base], line.op)
    ensures EmittedLines(asm + [line], base, insts)
  {
  }

  lemma ProtectedStep(insts: seq<Instruction>, lo: nat, i: nat, v2r: map<IRValue, Reg>)
    requires lo <= i < |insts|
    ensures ProtectedIn(insts, lo, i + 1, v2r) ==
            ProtectedIn(insts, lo, i, v2r) +
            (set m | 0 <= m < |Operands(insts[i])| && Operands(insts[i])[m] in v2r :: v2r[Operands(insts[i])[m]])
  {
    var ops := Operands(insts[i]);
    var step := set m | 0 <= m < |ops| && ops[m] in v2r :: v2r[ops[m]];
    forall r | r in ProtectedIn(insts, lo, i + 1, v2r)
      ensures r in ProtectedIn(insts, lo, i, v2r) + step
    {
      var j, u :| lo <= j < i + 1 && j < |insts| && u in Operands(insts[j]) && u in v2r && v2r[u] == r;
      if j == i {
        var m :| 0 <= m < |ops| && ops[m] == u;
      }
    }
  }
}
