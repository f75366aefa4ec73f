/**
  The three-qubit repetition code (the Q3 Shor mapper): logical qubit `i`
  is spread over `i`, `i+n` and `i+2n`.  Encoding copies the primary into
  the two redundant copies with CNOTs; decoding repeats the same CNOTs and
  lets a Toffoli with the redundant copies as controls correct the primary
  by majority vote.
 */
module Q3Shor {
  import opened Circuit
  import opened Primitives
  import opened Semantics

  /** Redundancy the Q3 mapper passes to the base mapper. */
  const Redundancy: nat := 3

  /** Gates appended by one iteration of the encoding loop. */
  function EncodeBlock(n: nat, i: nat): seq<Op>
  {
    Cnot(i, i + n) + Cnot(i, i + 2 * n)
  }

  function EncodeBody(n: nat): nat -> seq<Op>
  {
    (i: nat) => EncodeBlock(n, i)
  }

  /** writeEncoding. */
  function Encode(n: nat): seq<Op>
  {
    Loop(n, EncodeBody(n))
  }

  /** Gates appended by one iteration of the decoding loop. */
  function DecodeBlock(n: nat, i: nat): seq<Op>
  {
    Cnot(i, i + n) + Cnot(i, i + 2 * n) + Toffoli(i + n, i + 2 * n, i)
  }

  function DecodeBody(n: nat): nat -> seq<Op>
  {
    (i: nat) => DecodeBlock(n, i)
  }

  /** writeDecoding. */
  function Decode(n: nat): seq<Op>
  {
    Loop(n, DecodeBody(n))
  }

  /** The encoding is `2n` CNOTs: for each logical qubit in increasing
      order, first primary to copy 1, then primary to copy 2. */
  lemma EncodeLayout(n: nat)
    ensures |Encode(n)| == 2 * n
    ensures forall i: nat :: i < n ==>
      2 * i + 2 <= |Encode(n)|
      && Chunk(Encode(n), 2, i) == [CX(Wire(i), Wire(i + n)), CX(Wire(i), Wire(i + 2 * n))]
  {
    LoopChunks(n, EncodeBody(n), 2);
    forall i: nat | i < n
      ensures Chunk(Encode(n), 2, i) == [CX(Wire(i), Wire(i + n)), CX(Wire(i), Wire(i + 2 * n))]
    {
      assert Chunk(Encode(n), 2, i) == EncodeBody(n)(i) == EncodeBlock(n, i);
    }
  }

  /** Every encoding gate is a CNOT whose control is a logical index and
      whose target is one of that index's two redundant copies. */
  lemma EncodeCnotsFromPrimaries(n: nat)
    requires 3 * n <= ShortRange
    ensures forall op :: op in Encode(n) ==>
      op.CX? && op.c < n && (op.t == op.c + n || op.t == op.c + 2 * n)
  {
    forall op | op in Encode(n)
      ensures op.CX? && op.c < n && (op.t == op.c + n || op.t == op.c + 2 * n)
    {
      LoopMember(n, EncodeBody(n), op);
    }
  }

  /** The decoding is `18n` gates; the block of logical qubit `i` starts
      with exactly the two CNOTs the encoding applied to it and ends with
      the Toffoli whose controls are the redundant copies and whose target
      is the primary. */
  lemma DecodeLayout(n: nat)
    ensures |Decode(n)| == 18 * n
    ensures forall i: nat :: i < n ==>
      && 18 * i + 18 <= |Decode(n)| && 2 * i + 2 <= |Encode(n)|
      && Chunk(Decode(n), 18, i)[..2] == Chunk(Encode(n), 2, i)
      && Chunk(Decode(n), 18, i)[2..] == Toffoli(i + n, i + 2 * n, i)
  {
    LoopChunks(n, DecodeBody(n), 18);
    LoopChunks(n, EncodeBody(n), 2);
  }

  /** One encoding block is two CNOTs; one decoding block is eighteen
      gates, eight of them CNOTs. */
  lemma BlockCounts(n: nat, i: nat)
    ensures |EncodeBlock(n, i)| == 2 && CountCX(EncodeBlock(n, i)) == 2
    ensures |DecodeBlock(n, i)| == 18 && CountCX(DecodeBlock(n, i)) == 8
  {
    CountCXAppend(Cnot(i, i + n), Cnot(i, i + 2 * n));
    CountCXAppend(EncodeBlock(n, i), Toffoli(i + n, i + 2 * n, i));
    ToffoliCountCX(i + n, i + 2 * n, i);
  }

  /** The encoding holds `2n` CNOTs and the decoding `8n`: two CNOTs and
      the Toffoli's six per logical qubit. */
  lemma CnotCounts(n: nat)
    ensures CountCX(Encode(n)) == 2 * n
    ensures CountCX(Decode(n)) == 8 * n
  {
    forall i: nat
      ensures CountCX(EncodeBody(n)(i)) == 2
      ensures CountCX(DecodeBody(n)(i)) == 8
    {
      BlockCounts(n, i);
    }
    LoopCountCX(n, EncodeBody(n), 2);
    LoopCountCX(n, DecodeBody(n), 8);
  }

  /** Within the index width, all gates for logical qubit `i` touch only
      its three copies. */
  lemma Support(n: nat, i: nat)
    requires i < n && 3 * n <= ShortRange
    ensures |Encode(n)| == 2 * n && |Decode(n)| == 18 * n
    ensures Within(Chunk(Encode(n), 2, i), Block(n, 3, i))
    ensures Within(Chunk(Decode(n), 18, i), Block(n, 3, i))
  {
    LoopChunks(n, EncodeBody(n), 2);
    LoopChunks(n, DecodeBody(n), 18);
    BlockSupport(n, i);
  }

  lemma BlockSupport(n: nat, i: nat)
    requires i + 2 * n < ShortRange
    ensures Within(EncodeBlock(n, i), Block(n, 3, i))
    ensures Within(DecodeBlock(n, i), Block(n, 3, i))
  {
    var copies := Block(n, 3, i);
    BlockHasCopies(n, i);
    assert Within(EncodeBlock(n, i), copies);
    ToffoliWithin(i + n, i + 2 * n, i);
    WithinConcat(EncodeBlock(n, i), Toffoli(i + n, i + 2 * n, i), copies);
  }

  /** Within the index width, the whole code stays in the `3n` register. */
  lemma InRegister(n: nat)
    requires 3 * n <= ShortRange
    ensures Bounded(Encode(n), 3 * n) && Bounded(Decode(n), 3 * n)
  {
    forall op | op in Encode(n)
      ensures OpBelow(op, 3 * n)
    {
      LoopMember(n, EncodeBody(n), op);
      var k: nat :| k < n && op in EncodeBlock(n, k);
      BlockBounded(n, k);
    }
    forall op | op in Decode(n)
      ensures OpBelow(op, 3 * n)
    {
      LoopMember(n, DecodeBody(n), op);
      var k: nat :| k < n && op in DecodeBlock(n, k);
      BlockBounded(n, k);
    }
  }

  lemma BlockBounded(n: nat, k: nat)
    requires k < n && 3 * n <= ShortRange
    ensures Bounded(EncodeBlock(n, k), 3 * n) && Bounded(DecodeBlock(n, k), 3 * n)
  {
    BlockSupport(n, k);
    BlockHasCopies(n, k);
  }

  lemma BlockHasCopies(n: nat, i: nat)
    ensures Block(n, 3, i) == {i, i + n, i + 2 * n}
  {
    assert Copy(n, i, 0) == i && Copy(n, i, 1) == i + n && Copy(n, i, 2) == i + 2 * n;
  }

  // ---------------------------------------------------------------------
  // Basis-state behaviour

  /** `r` is `s` after the encoding loop has run its first `m` iterations:
      copies 1 and 2 of the first `m` logical qubits have had their
      primary added to them, every other bit is untouched. */
  predicate EncodedUpTo(n: nat, m: nat, s: seq<bool>, r: seq<bool>)
    requires 3 * n <= |s| && |r| == |s|
  {
    && (forall i :: 0 <= i < n ==> r[i] == s[i])
    && (forall i :: 0 <= i < n ==> r[i + n] == (s[i + n] != (i < m && s[i])))
    && (forall i :: 0 <= i < n ==> r[i + 2 * n] == (s[i + 2 * n] != (i < m && s[i])))
    && (forall q :: 3 * n <= q < |s| ==> r[q] == s[q])
  }

  lemma {:induction false} EncodePrefixRun(n: nat, m: nat, st: Basis)
    requires m <= n && 3 * n <= ShortRange && 3 * n <= |st.bits|
    ensures var r := Run(Loop(m, EncodeBody(n)), st);
      r.phase == st.phase && EncodedUpTo(n, m, st.bits, r.bits)
  {
    if m > 0 {
      var i := m - 1;
      EncodePrefixRun(n, i, st);
      var x := Run(Loop(i, EncodeBody(n)), st);
      RunCnotPair(i, i + n, i + 2 * n, x);
      RunAppend(Loop(i, EncodeBody(n)), EncodeBlock(n, i), st);
      EncodeStep(n, i, st.bits, x.bits, Run(EncodeBlock(n, i), x).bits);
    }
  }

  /** One more iteration of the encoding loop extends the encoded prefix. */
  lemma EncodeStep(n: nat, i: nat, s: seq<bool>, x: seq<bool>, y: seq<bool>)
    requires i < n && 3 * n <= |s| && |x| == |s|
    requires EncodedUpTo(n, i, s, x)
    requires y == x[i + n := x[i + n] != x[i]][i + 2 * n := x[i + 2 * n] != x[i]]
    ensures EncodedUpTo(n, i + 1, s, y)
  {
  }

  /** On basis states the encoding adds each primary into its two copies;
      on copies that start at 0 this is the repetition code b -> bbb. */
  lemma EncodeRun(n: nat, st: Basis)
    requires 3 * n <= ShortRange && 3 * n <= |st.bits|
    ensures Runnable(Encode(n), |st.bits|)
    ensures var r := Run(Encode(n), st);
      && r.phase == st.phase
      && |r.bits| == |st.bits|
      && (forall i :: 0 <= i < n ==> r.bits[i] == st.bits[i])
      && (forall i :: 0 <= i < n ==> r.bits[i + n] == (st.bits[i + n] != st.bits[i]))
      && (forall i :: 0 <= i < n ==> r.bits[i + 2 * n] == (st.bits[i + 2 * n] != st.bits[i]))
      && (forall q :: 3 * n <= q < |st.bits| ==> r.bits[q] == st.bits[q])
  {
    EncodePrefixRun(n, n, st);
    InRegister(n);
    forall k | 0 <= k < |Encode(n)|
      ensures InFragment(Encode(n)[k]) && OpBelow(Encode(n)[k], |st.bits|)
    {
      assert Encode(n)[k] in Encode(n);
      EncodeCnotsFromPrimaries(n);
    }
  }

  /** The encoding is its own inverse on basis states. */
  lemma EncodeInvolution(n: nat, st: Basis)
    requires 3 * n <= ShortRange && 3 * n <= |st.bits|
    ensures Run(Encode(n), Run(Encode(n), st)) == st
  {
    var x := Run(Encode(n), st);
    EncodeRun(n, st);
    EncodeRun(n, x);
    var y := Run(Encode(n), x);
    EncodedTwice(n, st.bits, x.bits, y.bits);
  }

  /** Adding the primaries into their copies twice cancels out. */
  lemma EncodedTwice(n: nat, s: seq<bool>, x: seq<bool>, y: seq<bool>)
    requires 3 * n <= |s| && |x| == |s| && |y| == |s|
    requires EncodedUpTo(n, n, s, x) && EncodedUpTo(n, n, x, y)
    ensures y == s
  {
    forall q | 0 <= q < |s|
      ensures y[q] == s[q]
    {
      if q >= 2 * n && q < 3 * n {
        var i := q - 2 * n;
        assert y[i + 2 * n] == (x[i + 2 * n] != x[i]);
      } else if q >= n && q < 2 * n {
        var i := q - n;
        assert y[i + n] == (x[i + n] != x[i]);
      }
    }
  }

  // ---------------------------------------------------------------------
  // Majority vote

  /** Reference behaviour of a doubly-controlled X on basis states. */
  function Ccx(bits: seq<bool>, c1: nat, c2: nat, target: nat): (r: seq<bool>)
    requires c1 < |bits| && c2 < |bits| && target < |bits|
    ensures |r| == |bits|
  {
    bits[target := bits[target] != (bits[c1] && bits[c2])]
  }

  /** The three copies of logical qubit `i` hold `b`, except copy `e`
      (when `e < 3`) which has been flipped. */
  predicate CopiesWithFlip(n: nat, i: nat, bits: seq<bool>, b: bool, e: nat)
    requires i + 2 * n < |bits|
  {
    && bits[i] == (b != (e == 0))
    && bits[i + n] == (b != (e == 1))
    && bits[i + 2 * n] == (b != (e == 2))
  }

  /** After the decoding block's two CNOTs the redundant copies carry the
      syndrome: both are set exactly when the primary was the flipped copy,
      and the doubly-controlled X on the primary then restores the logical
      value whatever single copy was flipped. */
  lemma MajorityVote(n: nat, i: nat, st: Basis, b: bool, e: nat)
    requires 0 < n && i < n && 3 * n <= ShortRange && 3 * n <= |st.bits|
    requires e <= 3 && CopiesWithFlip(n, i, st.bits, b, e)
    ensures Runnable(DecodeBlock(n, i)[..2], |st.bits|)
    ensures var x := Run(DecodeBlock(n, i)[..2], st).bits;
      && (x[i + n] && x[i + 2 * n]) == (e == 0)
      && Ccx(x, i + n, i + 2 * n, i)[i] == b
  {
    assert i + 2 * n < 3 * n;
    assert DecodeBlock(n, i)[..2] == Cnot(i, i + n) + Cnot(i, i + 2 * n);
    RunCnotPair(i, i + n, i + 2 * n, st);
  }
}
