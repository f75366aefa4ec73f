/**
  Gates, physical operations and the affine qubit layout shared by every part
  of the error-correcting-code mapper.

  A logical circuit over `n` qubits is lowered to a physical circuit in which
  copy `j` of logical qubit `i` sits at physical index `i + j*n`.
 */
module Circuit {

  /** Gate kinds of the circuit library that the mapper's dispatch mentions,
      plus the non-unitary kinds that reach its default branch. */
  datatype Kind =
    | I | H | X | Y | Z | S | Sdag | T | Tdag | V | Vdag
    | U3 | U2 | Phase | SX | SXdag | RX | RY | RZ
    | SWAP | ISWAP | Peres | Peresdag | Compound | ClassicControlled
    | None | Measure | Reset | Snapshot | ShowProbabilities | Barrier | Teleportation

  /** A control qubit with its polarity (positive fires on |1>). */
  datatype Control = Control(qubit: nat, positive: bool)

  /** An instruction of the logical input circuit. */
  datatype Gate = Gate(kind: Kind, targets: seq<nat>, controls: seq<Control>)

  /** An instruction of the physical output circuit: an uncontrolled
      single-qubit gate, or an X gate with one positive control (a CNOT). */
  datatype Op = G1(kind: Kind, q: nat) | CX(c: nat, t: nat)

  /** The qubits an operation acts on. */
  function Qubits(op: Op): set<nat>
  {
    match op
    case G1(_, q) => {q}
    case CX(c, t) => {c, t}
  }

  /** Every operation of `ops` acts only on qubits of `allowed`. */
  predicate Within(ops: seq<Op>, allowed: set<nat>)
  {
    forall op :: op in ops ==> Qubits(op) <= allowed
  }

  /** Concatenation stays within a set when both parts do. */
  lemma WithinConcat(a: seq<Op>, b: seq<Op>, allowed: set<nat>)
    requires Within(a, allowed) && Within(b, allowed)
    ensures Within(a + b, allowed)
  {
  }

  /** The operation acts only on qubits below `bound`. */
  predicate OpBelow(op: Op, bound: nat)
  {
    match op
    case G1(_, q) => q < bound
    case CX(c, t) => c < bound && t < bound
  }

  /** Every operation of `ops` acts only on qubits below `bound`. */
  predicate Bounded(ops: seq<Op>, bound: nat)
  {
    forall op :: op in ops ==> OpBelow(op, bound)
  }

  // ---------------------------------------------------------------------
  // Index width

  /** Number of values of the `unsigned short` parameters through which the
      CNOT and Toffoli writers receive their qubit indices. */
  const ShortRange: nat := 65536

  /** The implicit conversion of a qubit index to `unsigned short`. */
  function Wire(x: nat): (w: nat)
    ensures w < ShortRange
    ensures x < ShortRange ==> w == x
  {
    x % ShortRange
  }

  // ---------------------------------------------------------------------
  // Affine layout

  /** Physical index of copy `j` of logical qubit `i` among `n` logical qubits. */
  function Copy(n: nat, i: nat, j: nat): nat
  {
    i + j * n
  }

  /** The logical qubit a physical index belongs to. */
  function Owner(n: nat, q: nat): nat
    requires n > 0
  {
    q % n
  }

  /** Which copy of its owner a physical index is. */
  function CopyNumber(n: nat, q: nat): nat
    requires n > 0
  {
    q / n
  }

  /** The `r` physical copies of logical qubit `i`. */
  function Block(n: nat, r: nat, i: nat): set<nat>
  {
    set j: nat | j < r :: Copy(n, i, j)
  }

  /** Copy and (Owner, CopyNumber) are inverse to each other. */
  lemma LayoutRoundTrip(n: nat, i: nat, j: nat, q: nat)
    requires i < n
    ensures Owner(n, Copy(n, i, j)) == i && CopyNumber(n, Copy(n, i, j)) == j
    ensures Copy(n, Owner(n, q), CopyNumber(n, q)) == q
  {
    var p := Copy(n, i, j);
    assert p == j * n + i;
    DivModUnique(n, p, j, i);
  }

  /** The quotient and remainder of `p` by `n` are the unique decomposition. */
  lemma DivModUnique(n: nat, p: nat, a: nat, b: nat)
    requires n > 0 && b < n && p == a * n + b
    ensures p / n == a && p % n == b
  {
    var a', b' := p / n, p % n;
    assert a * n - a' * n == (a - a') * n == b' - b;
    if a < a' {
      MulAtLeast(a' - a, n);
    } else if a' < a {
      MulAtLeast(a - a', n);
    }
  }

  lemma MulAtLeast(d: nat, n: nat)
    requires d >= 1
    ensures d * n >= n
  {
    assert d * n == (d - 1) * n + n;
  }

  /** A copy of a logical qubit below `n` lies in the `r*n` register. */
  lemma CopyBelow(n: nat, r: nat, i: nat, j: nat)
    requires i < n && j < r
    ensures Copy(n, i, j) < r * n
  {
    assert (j + 1) * n == j * n + n;
    MulMonotone(j + 1, r, n);
  }

  lemma MulMonotone(a: nat, b: nat, n: nat)
    requires a <= b
    ensures a * n <= b * n
  {
    assert b * n == a * n + (b - a) * n;
  }

  /** The blocks of all logical qubits lie in the `r*n` register. */
  lemma BlockBelow(n: nat, r: nat, i: nat)
    requires i < n
    ensures forall q :: q in Block(n, r, i) ==> q < r * n
  {
    forall q | q in Block(n, r, i)
      ensures q < r * n
    {
      var j: nat :| j < r && q == Copy(n, i, j);
      CopyBelow(n, r, i, j);
    }
  }

  /** Blocks of distinct logical qubits share no physical qubit. */
  lemma BlocksDisjoint(n: nat, r: nat, i: nat, i': nat)
    requires i < n && i' < n && i != i'
    ensures Block(n, r, i) !! Block(n, r, i')
  {
    forall q | q in Block(n, r, i) && q in Block(n, r, i')
      ensures false
    {
      var j: nat :| j < r && q == Copy(n, i, j);
      var j': nat :| j' < r && q == Copy(n, i', j');
      LayoutRoundTrip(n, i, j, q);
      LayoutRoundTrip(n, i', j', q);
    }
  }

  // ---------------------------------------------------------------------
  // Loops that append a block of operations per logical qubit

  /** The operations appended by `for (i = 0; i < m; i++) body(i)`. */
  function Loop(m: nat, body: nat -> seq<Op>): seq<Op>
  {
    if m == 0 then [] else Loop(m - 1, body) + body(m - 1)
  }

  /** The `i`-th piece of width `width` of `ops`. */
  function Chunk(ops: seq<Op>, width: nat, i: nat): seq<Op>
    requires i * width + width <= |ops|
  {
    ops[i * width .. i * width + width]
  }

  /** A loop whose body always appends `width` operations is the
      concatenation, in increasing order, of the bodies. */
  lemma {:induction false} LoopChunks(m: nat, body: nat -> seq<Op>, width: nat)
    requires forall i: nat :: |body(i)| == width
    ensures |Loop(m, body)| == m * width
    ensures forall i: nat :: i < m ==> i * width + width <= m * width && Chunk(Loop(m, body), width, i) == body(i)
  {
    if m > 0 {
      LoopChunks(m - 1, body, width);
      var prev := Loop(m - 1, body);
      assert m * width == (m - 1) * width + width;
      forall i: nat | i < m
        ensures i * width + width <= m * width && Chunk(Loop(m, body), width, i) == body(i)
      {
        assert i * width + width == (i + 1) * width;
        assert m * width == (i + 1) * width + (m - 1 - i) * width;
        if i < m - 1 {
          assert (m - 1) * width == (i + 1) * width + (m - 2 - i) * width;
          assert Chunk(Loop(m, body), width, i) == Chunk(prev, width, i);
        } else {
          assert i * width == |prev|;
        }
      }
    }
  }

  /** Every operation of a loop comes from the body of some iteration. */
  lemma {:induction false} LoopMember(m: nat, body: nat -> seq<Op>, op: Op)
    requires op in Loop(m, body)
    ensures exists i: nat :: i < m && op in body(i)
  {
    if m > 0 {
      if op !in body(m - 1) {
        LoopMember(m - 1, body, op);
      }
    }
  }

  // ---------------------------------------------------------------------
  // Counting CNOTs

  /** Number of CNOTs in `ops`. */
  function CountCX(ops: seq<Op>): nat
  {
    if |ops| == 0 then 0
    else CountCX(ops[..|ops| - 1]) + (if ops[|ops| - 1].CX? then 1 else 0)
  }

  /** CNOT counts add up over concatenation. */
  lemma {:induction false} CountCXAppend(a: seq<Op>, b: seq<Op>)
    ensures CountCX(a + b) == CountCX(a) + CountCX(b)
  {
    if |b| > 0 {
      assert (a + b)[..|a + b| - 1] == a + b[..|b| - 1];
      CountCXAppend(a, b[..|b| - 1]);
    } else {
      assert a + b == a;
    }
  }

  /** A sequence of single-qubit gates holds no CNOT. */
  lemma {:induction false} NoCnots(ops: seq<Op>)
    requires forall k :: 0 <= k < |ops| ==> ops[k].G1?
    ensures CountCX(ops) == 0
  {
    if |ops| > 0 {
      NoCnots(ops[..|ops| - 1]);
    }
  }

  /** A loop whose bodies each hold `count` CNOTs holds `m * count`. */
  lemma {:induction false} LoopCountCX(m: nat, body: nat -> seq<Op>, count: nat)
    requires forall i: nat :: CountCX(body(i)) == count
    ensures CountCX(Loop(m, body)) == m * count
  {
    if m > 0 {
      LoopCountCX(m - 1, body, count);
      CountCXAppend(Loop(m - 1, body), body(m - 1));
      assert m * count == (m - 1) * count + count;
    }
  }
}
