/**
  A basis-state semantics for the fragment of physical operations that map
  computational basis states to basis states: X and CNOT permute the bits,
  and the diagonal gates I, Z, S, Sdag, T and Tdag multiply by a phase that
  is a whole number of eighths of a turn.  H and the other kinds are outside
  the fragment.
 */
module Semantics {
  import opened Circuit
  import opened Primitives

  /** A computational basis state with an accumulated phase, counted in
      eighths of a turn (units of pi/4). */
  datatype Basis = Basis(bits: seq<bool>, phase: int)

  function Bit(b: bool): int
  {
    if b then 1 else 0
  }

  /** The phase, in eighths of a turn, that a diagonal gate applies to |1>. */
  function Eighths(k: Kind): int
  {
    match k
    case Z => 4
    case S => 2
    case Sdag => -2
    case T => 1
    case Tdag => -1
    case _ => 0
  }

  /** Operations of the fragment. */
  predicate InFragment(op: Op)
  {
    op.CX? || op.kind in {I, X, Z, S, Sdag, T, Tdag}
  }

  /** All operations of `ops` are in the fragment and address qubits below `width`. */
  predicate Runnable(ops: seq<Op>, width: nat)
  {
    forall k :: 0 <= k < |ops| ==> InFragment(ops[k]) && OpBelow(ops[k], width)
  }

  /** The effect of one operation of the fragment on a basis state.  The
      semantics is only claimed for `Runnable` sequences; outside the
      fragment, or on an index beyond the state, it leaves the state alone. */
  function Step(op: Op, st: Basis): (r: Basis)
    ensures |r.bits| == |st.bits|
  {
    if !InFragment(op) || !OpBelow(op, |st.bits|) then st
    else match op
      case CX(c, t) =>
        Basis(st.bits[t := st.bits[t] != st.bits[c]], st.phase)
      case G1(k, q) =>
        if k == X then Basis(st.bits[q := !st.bits[q]], st.phase)
        else Basis(st.bits, st.phase + (if st.bits[q] then Eighths(k) else 0))
  }

  /** The effect of a sequence of operations, in order. */
  function Run(ops: seq<Op>, st: Basis): (r: Basis)
    ensures |r.bits| == |st.bits|
    decreases |ops|
  {
    if |ops| == 0 then st else Run(ops[1..], Step(ops[0], st))
  }

  /** Running a concatenation runs its parts one after the other. */
  lemma {:induction false} RunAppend(a: seq<Op>, b: seq<Op>, st: Basis)
    ensures Run(a + b, st) == Run(b, Run(a, st))
    decreases |a|
  {
    if |a| > 0 {
      assert (a + b)[1..] == a[1..] + b;
      RunAppend(a[1..], b, Step(a[0], st));
    } else {
      assert a + b == b;
    }
  }

  /** A CNOT flips its target exactly when its control is set. */
  lemma RunCnot(c: nat, t: nat, st: Basis)
    requires c < |st.bits| && t < |st.bits| && c < ShortRange && t < ShortRange
    ensures Runnable(Cnot(c, t), |st.bits|)
    ensures Run(Cnot(c, t), st).bits == (if st.bits[c] then st.bits[t := !st.bits[t]] else st.bits)
    ensures Run(Cnot(c, t), st).phase == st.phase
  {
    assert Cnot(c, t)[1..] == [];
  }

  /** Two CNOTs sharing a control copy that control into both targets. */
  lemma {:induction false} RunCnotPair(c: nat, t1: nat, t2: nat, st: Basis)
    requires c < |st.bits| && t1 < |st.bits| && t2 < |st.bits|
    requires c < ShortRange && t1 < ShortRange && t2 < ShortRange
    requires c != t1 && c != t2 && t1 != t2
    ensures Runnable(Cnot(c, t1) + Cnot(c, t2), |st.bits|)
    ensures var r := Run(Cnot(c, t1) + Cnot(c, t2), st);
      && r.phase == st.phase
      && r.bits == st.bits[t1 := st.bits[t1] != st.bits[c]][t2 := st.bits[t2] != st.bits[c]]
  {
    RunCnot(c, t1, st);
    var mid := Run(Cnot(c, t1), st);
    RunCnot(c, t2, mid);
    RunAppend(Cnot(c, t1), Cnot(c, t2), st);
  }

  /** The Toffoli macro without its two H gates on the target. */
  function ToffoliCore(c1: nat, c2: nat, target: nat): seq<Op>
  {
    var m := Toffoli(c1, c2, target);
    assert |m| == 16;
    m[1..9] + m[10..]
  }

  /** The fourteen gates of the Toffoli macro other than its two H gates on
      the target (positions 1-8 and 10-15), taken together, are a phase
      polynomial that leaves every basis state in place and adds
      half a turn of phase exactly when both controls and the target are
      set: it is a doubly-controlled Z.  Since the gates after the second H
      do not touch the target, the macro is H·CCZ·H on the target, which is
      a Toffoli gate. */
  lemma ToffoliIsConjugatedCcz(c1: nat, c2: nat, target: nat, st: Basis)
    requires c1 < |st.bits| && c2 < |st.bits| && target < |st.bits|
    requires c1 < ShortRange && c2 < ShortRange && target < ShortRange
    requires c1 != c2 && c1 != target && c2 != target
    ensures var m := Toffoli(c1, c2, target);
      && m[0] == G1(H, target) && m[9] == G1(H, target)
      && (forall k :: 10 <= k < 16 ==> target !in Qubits(m[k]))
    ensures Runnable(ToffoliCore(c1, c2, target), |st.bits|)
    ensures var r := Run(ToffoliCore(c1, c2, target), st);
      && r.bits == st.bits
      && r.phase % 8 == (st.phase + (if st.bits[c1] && st.bits[c2] && st.bits[target] then 4 else 0)) % 8
  {
    ToffoliCoreRunnable(c1, c2, target, |st.bits|);
    ToffoliCoreRun(c1, c2, target, st);
  }

  /** Two rounds of `TargetRound` followed by two of `ControlRound` and a
      final S and T: the fourteen gates of the Toffoli macro other than its
      two H gates, for indices that fit the index width. */
  function ToffoliCoreGates(c1: nat, c2: nat, target: nat): seq<Op>
  {
    TargetRound(c1, c2, target) + TargetRound(c1, c2, target)
    + ControlRound(c1, c2) + ControlRound(c1, c2) + ControlTail(c1, c2)
  }

  function TargetRound(c1: nat, c2: nat, target: nat): seq<Op>
  {
    [CX(c2, target), G1(Tdag, target), CX(c1, target), G1(T, target)]
  }

  function ControlRound(c1: nat, c2: nat): seq<Op>
  {
    [G1(Tdag, c2), CX(c1, c2)]
  }

  function ControlTail(c1: nat, c2: nat): seq<Op>
  {
    [G1(S, c2), G1(T, c1)]
  }

  /** The Toffoli macro's core is the rounds above, inside the fragment. */
  lemma ToffoliCoreRunnable(c1: nat, c2: nat, target: nat, width: nat)
    requires c1 < width && c2 < width && target < width
    requires c1 < ShortRange && c2 < ShortRange && target < ShortRange
    ensures ToffoliCore(c1, c2, target) == ToffoliCoreGates(c1, c2, target)
    ensures Runnable(ToffoliCore(c1, c2, target), width)
  {
  }

  /** The core of the Toffoli macro is a doubly-controlled Z. */
  lemma ToffoliCoreRun(c1: nat, c2: nat, target: nat, st: Basis)
    requires c1 < |st.bits| && c2 < |st.bits| && target < |st.bits|
    requires c1 != c2 && c1 != target && c2 != target
    ensures var r := Run(ToffoliCoreGates(c1, c2, target), st);
      && r.bits == st.bits
      && r.phase % 8 == (st.phase + (if st.bits[c1] && st.bits[c2] && st.bits[target] then 4 else 0)) % 8
  {
    var a, b, t := st.bits[c1], st.bits[c2], st.bits[target];
    var tp := TargetRound(c1, c2, target) + TargetRound(c1, c2, target);
    var cp := ControlRound(c1, c2) + ControlRound(c1, c2) + ControlTail(c1, c2);
    assert ToffoliCoreGates(c1, c2, target) == tp + cp;
    RunTargetPart(c1, c2, target, st);
    var x := Run(tp, st);
    RunControlPart(c1, c2, x);
    var y := Run(cp, x);
    RunAppend(tp, cp, st);
    PhaseSum(a, b, t);
    assert y.phase == st.phase + (if a && b && t then 4 else 0);
  }

  /** The phases the fourteen gates collect add up to half a turn exactly
      when all three bits are set. */
  lemma PhaseSum(a: bool, b: bool, t: bool)
    ensures -Bit(t != b) + Bit((t != b) != a) - Bit(t != a) + Bit(t) - Bit(b) - Bit(b != a) + 2 * Bit(b) + Bit(a)
      == (if a && b && t then 4 else 0)
  {
  }

  /** The eight gates between the macro's two H gates leave the basis
      state in place and collect a phase. */
  lemma RunTargetPart(c1: nat, c2: nat, target: nat, st: Basis)
    requires c1 < |st.bits| && c2 < |st.bits| && target < |st.bits|
    requires c1 != c2 && c1 != target && c2 != target
    ensures var a, b, t := st.bits[c1], st.bits[c2], st.bits[target];
      var r := Run(TargetRound(c1, c2, target) + TargetRound(c1, c2, target), st);
      r.bits == st.bits && r.phase == st.phase - Bit(t != b) + Bit((t != b) != a) - Bit(t != a) + Bit(t)
  {
    var tr := TargetRound(c1, c2, target);
    RunTargetRound(c1, c2, target, st);
    var x1 := Run(tr, st);
    RunTargetRound(c1, c2, target, x1);
    var x2 := Run(tr, x1);
    var a, b, t := st.bits[c1], st.bits[c2], st.bits[target];
    assert x1.bits[c1] == a && x1.bits[c2] == b && x1.bits[target] == ((t != b) != a);
    assert x2.bits == st.bits;
    RunAppend(tr, tr, st);
  }

  /** The six gates after the macro's second H leave the basis state in
      place and collect a phase. */
  lemma RunControlPart(c1: nat, c2: nat, st: Basis)
    requires c1 < |st.bits| && c2 < |st.bits| && c1 != c2
    ensures var a, b := st.bits[c1], st.bits[c2];
      var r := Run(ControlRound(c1, c2) + ControlRound(c1, c2) + ControlTail(c1, c2), st);
      r.bits == st.bits && r.phase == st.phase - Bit(b) - Bit(b != a) + 2 * Bit(b) + Bit(a)
  {
    var cr, tail := ControlRound(c1, c2), ControlTail(c1, c2);
    var a, b := st.bits[c1], st.bits[c2];
    RunControlRound(c1, c2, st);
    var x1 := Run(cr, st);
    assert x1.bits[c1] == a && x1.bits[c2] == (b != a);
    RunControlRound(c1, c2, x1);
    var x2 := Run(cr, x1);
    assert x2.bits == st.bits;
    RunControlTail(c1, c2, x2);
    RunAppend(cr, cr, st);
    RunAppend(cr + cr, tail, st);
  }

  lemma RunControlTail(c1: nat, c2: nat, st: Basis)
    requires c1 < |st.bits| && c2 < |st.bits|
    ensures Run(ControlTail(c1, c2), st)
      == Basis(st.bits, st.phase + 2 * Bit(st.bits[c2]) + Bit(st.bits[c1]))
  {
    RunTwo(G1(S, c2), G1(T, c1), st);
    StepDiagonal(S, c2, st);
    StepDiagonal(T, c1, Step(G1(S, c2), st));
  }

  /** Unfolds the first step of a run. */
  lemma RunHead(ops: seq<Op>, st: Basis)
    requires |ops| > 0
    ensures Run(ops, st) == Run(ops[1..], Step(ops[0], st))
  {
  }

  lemma RunTwo(o1: Op, o2: Op, st: Basis)
    ensures Run([o1, o2], st) == Step(o2, Step(o1, st))
  {
    RunHead([o1, o2], st);
    RunHead([o1, o2][1..], Step(o1, st));
    assert [o1, o2][2..] == [];
  }

  lemma RunFour(o1: Op, o2: Op, o3: Op, o4: Op, st: Basis)
    ensures Run([o1, o2, o3, o4], st) == Step(o4, Step(o3, Step(o2, Step(o1, st))))
  {
    var p := [o1, o2, o3, o4];
    RunHead(p, st);
    RunHead(p[1..], Step(o1, st));
    RunHead(p[2..], Step(o2, Step(o1, st)));
    RunHead(p[3..], Step(o3, Step(o2, Step(o1, st))));
    assert p[4..] == [];
  }

  /** A CNOT of the fragment on a basis state. */
  lemma StepCnot(c: nat, t: nat, st: Basis)
    requires c < |st.bits| && t < |st.bits|
    ensures Step(CX(c, t), st) == Basis(st.bits[t := st.bits[t] != st.bits[c]], st.phase)
  {
  }

  /** A diagonal gate of the fragment on a basis state. */
  lemma StepDiagonal(k: Kind, q: nat, st: Basis)
    requires q < |st.bits| && k in {Z, S, Sdag, T, Tdag}
    ensures Step(G1(k, q), st) == Basis(st.bits, st.phase + (if st.bits[q] then Eighths(k) else 0))
  {
  }

  /** One target round adds both control bits to the target and collects
      the phase of two of the parities it passes through. */
  lemma RunTargetRound(c1: nat, c2: nat, target: nat, st: Basis)
    requires c1 < |st.bits| && c2 < |st.bits| && target < |st.bits|
    requires c1 != target && c2 != target
    ensures var a, b, t := st.bits[c1], st.bits[c2], st.bits[target];
      Run(TargetRound(c1, c2, target), st)
        == Basis(st.bits[target := (t != b) != a], st.phase - Bit(t != b) + Bit((t != b) != a))
  {
    RunFour(CX(c2, target), G1(Tdag, target), CX(c1, target), G1(T, target), st);
    RoundSteps(c1, c2, target, st);
  }

  lemma RoundSteps(c1: nat, c2: nat, target: nat, st: Basis)
    requires c1 < |st.bits| && c2 < |st.bits| && target < |st.bits|
    requires c1 != target && c2 != target
    ensures var a, b, t := st.bits[c1], st.bits[c2], st.bits[target];
      Step(G1(T, target), Step(CX(c1, target), Step(G1(Tdag, target), Step(CX(c2, target), st))))
        == Basis(st.bits[target := (t != b) != a], st.phase - Bit(t != b) + Bit((t != b) != a))
  {
    var a, b, t := st.bits[c1], st.bits[c2], st.bits[target];
    var u := st.bits;
    StepCnot(c2, target, st);
    var x1 := Basis(u[target := t != b], st.phase);
    StepDiagonal(Tdag, target, x1);
    var x2 := Basis(x1.bits, x1.phase - Bit(t != b));
    StepCnot(c1, target, x2);
    var x3 := Basis(u[target := (t != b) != a], x2.phase);
    StepDiagonal(T, target, x3);
  }

  /** One control round adds the first control into the second after
      collecting the second's phase. */
  lemma RunControlRound(c1: nat, c2: nat, st: Basis)
    requires c1 < |st.bits| && c2 < |st.bits| && c1 != c2
    ensures Run(ControlRound(c1, c2), st)
      == Basis(st.bits[c2 := st.bits[c2] != st.bits[c1]], st.phase - Bit(st.bits[c2]))
  {
    RunTwo(G1(Tdag, c2), CX(c1, c2), st);
    ControlSteps(c1, c2, st);
  }

  lemma ControlSteps(c1: nat, c2: nat, st: Basis)
    requires c1 < |st.bits| && c2 < |st.bits| && c1 != c2
    ensures Step(CX(c1, c2), Step(G1(Tdag, c2), st))
      == Basis(st.bits[c2 := st.bits[c2] != st.bits[c1]], st.phase - Bit(st.bits[c2]))
  {
    StepDiagonal(Tdag, c2, st);
    StepCnot(c1, c2, Basis(st.bits, st.phase - Bit(st.bits[c2])));
  }
}
