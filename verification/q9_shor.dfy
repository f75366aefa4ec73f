/**
  Shor's nine-qubit code (the Q9 Shor mapper): logical qubit `i` owns the
  nine physical qubits `i + j*n`, `j < 9`, grouped into three blocks whose
  heads are `i`, `i+3n` and `i+6n`; head `h` has partners `h+n` and `h+2n`.
  Encoding spreads the primary over the heads, puts the heads into the
  Hadamard basis and spreads every head over its partners; decoding undoes
  the levels in reverse order, each with a majority-vote Toffoli.
 */
module Q9Shor {
  import opened Circuit
  import opened Primitives
  import Q3Shor

  /** Number of physical copies per logical qubit the Q9 layout uses. */
  const Redundancy: nat := 9

  /** The Hadamard layer on the three block heads.  These gates are written
      directly, not through the `unsigned short` writers, so their indices
      are not truncated. */
  function HeadLayer(n: nat, i: nat): seq<Op>
  {
    [G1(H, i), G1(H, i + 3 * n), G1(H, i + 6 * n)]
  }

  /** Gates appended by one iteration of the encoding loop: the outer
      repetition encoding of the primary onto the heads (copies `3n` apart),
      the head layer, then the inner repetition encoding of each head onto
      its partners.  `EncodeSlices` spells the eleven gates out in the order
      the source appends them. */
  function EncodeBlock(n: nat, i: nat): seq<Op>
  {
    Q3Shor.EncodeBlock(3 * n, i) + HeadLayer(n, i)
    + Q3Shor.EncodeBlock(n, i) + Q3Shor.EncodeBlock(n, i + 3 * n) + Q3Shor.EncodeBlock(n, i + 6 * n)
  }

  function EncodeBody(n: nat): nat -> seq<Op>
  {
    (i: nat) => EncodeBlock(n, i)
  }

  /** writeEncoding of the Q9 mapper. */
  function Encode(n: nat): seq<Op>
  {
    Loop(n, EncodeBody(n))
  }

  /** Gates appended by one iteration of the decoding loop: the inner
      repetition decoding (partner CNOTs and majority-vote Toffoli) of each
      head, the head layer, then the outer repetition decoding of the
      primary from the heads.  `DecodeSlices` spells the seventy-five gates
      out in the order the source appends them. */
  function DecodeBlock(n: nat, i: nat): seq<Op>
  {
    Q3Shor.DecodeBlock(n, i) + Q3Shor.DecodeBlock(n, i + 3 * n) + Q3Shor.DecodeBlock(n, i + 6 * n)
    + HeadLayer(n, i) + Q3Shor.DecodeBlock(3 * n, i)
  }

  function DecodeBody(n: nat): nat -> seq<Op>
  {
    (i: nat) => DecodeBlock(n, i)
  }

  /** writeDecoding of the Q9 mapper. */
  function Decode(n: nat): seq<Op>
  {
    Loop(n, DecodeBody(n))
  }

  // ---------------------------------------------------------------------
  // Shape

  /** A concatenation of five pieces, sliced back into its pieces. */
  lemma FivePieces(a: seq<Op>, b: seq<Op>, c: seq<Op>, d: seq<Op>, e: seq<Op>)
    ensures var s, p, q, r, t := a + b + c + d + e, |a|, |a| + |b|, |a| + |b| + |c|, |a| + |b| + |c| + |d|;
      && |s| == t + |e|
      && s[0..p] == a && s[p..q] == b && s[q..r] == c && s[r..t] == d && s[t..|s|] == e
  {
    var s, p, q, r, t := a + b + c + d + e, |a|, |a| + |b|, |a| + |b| + |c|, |a| + |b| + |c| + |d|;
    assert s == (a + b + c + d) + e;
    assert s[t..|s|] == e;
    assert s[0..t] == a + b + c + d;
    assert s[r..t] == d by {
      assert s[r..t] == (a + b + c + d)[r..t];
    }
    assert s[q..r] == c by {
      assert s[q..r] == (a + b + c)[q..r];
    }
    assert s[p..q] == b by {
      assert s[p..q] == (a + b)[p..q];
    }
    assert s[0..p] == a by {
      assert s[0..p] == (a + b)[0..p];
    }
  }

  /** The encoding block is eleven gates and the decoding block seventy-five.
      Decoding undoes the encoding level by level with the same gate pairs:
      each head's partner CNOTs are those of the encoding, each followed by
      the Toffoli correcting the head from its partners; the head layer is
      repeated; the outer CNOTs are those of the encoding, followed by the
      Toffoli correcting the primary from the other two heads. */
  lemma Mirror(n: nat, i: nat)
    ensures |EncodeBlock(n, i)| == 11 && |DecodeBlock(n, i)| == 75
    ensures var d, e := DecodeBlock(n, i), EncodeBlock(n, i);
      && e[0..2] == [CX(Wire(i), Wire(i + 3 * n)), CX(Wire(i), Wire(i + 6 * n))]
      && e[2..5] == [G1(H, i), G1(H, i + 3 * n), G1(H, i + 6 * n)]
      && e[5..7] == [CX(Wire(i), Wire(i + n)), CX(Wire(i), Wire(i + 2 * n))]
      && e[7..9] == [CX(Wire(i + 3 * n), Wire(i + 4 * n)), CX(Wire(i + 3 * n), Wire(i + 5 * n))]
      && e[9..11] == [CX(Wire(i + 6 * n), Wire(i + 7 * n)), CX(Wire(i + 6 * n), Wire(i + 8 * n))]
      && d[0..2] == e[5..7] && d[2..18] == Toffoli(i + n, i + 2 * n, i)
      && d[18..20] == e[7..9] && d[20..36] == Toffoli(i + 4 * n, i + 5 * n, i + 3 * n)
      && d[36..38] == e[9..11] && d[38..54] == Toffoli(i + 7 * n, i + 8 * n, i + 6 * n)
      && d[54..57] == e[2..5]
      && d[57..59] == e[0..2] && d[59..75] == Toffoli(i + 3 * n, i + 6 * n, i)
  {
    EncodeSlices(n, i);
    DecodeSlices(n, i);
  }

  lemma EncodeSlices(n: nat, i: nat)
    ensures var e := EncodeBlock(n, i);
      && |e| == 11
      && e[0..2] == [CX(Wire(i), Wire(i + 3 * n)), CX(Wire(i), Wire(i + 6 * n))]
      && e[2..5] == [G1(H, i), G1(H, i + 3 * n), G1(H, i + 6 * n)]
      && e[5..7] == [CX(Wire(i), Wire(i + n)), CX(Wire(i), Wire(i + 2 * n))]
      && e[7..9] == [CX(Wire(i + 3 * n), Wire(i + 4 * n)), CX(Wire(i + 3 * n), Wire(i + 5 * n))]
      && e[9..11] == [CX(Wire(i + 6 * n), Wire(i + 7 * n)), CX(Wire(i + 6 * n), Wire(i + 8 * n))]
  {
    var o, a, b, c := Q3Shor.EncodeBlock(3 * n, i), Q3Shor.EncodeBlock(n, i),
      Q3Shor.EncodeBlock(n, i + 3 * n), Q3Shor.EncodeBlock(n, i + 6 * n);
    FivePieces(o, HeadLayer(n, i), a, b, c);
    DecodePieces(3 * n, i, i, i + 3 * n, i + 6 * n);
    DecodePieces(n, i, i, i + n, i + 2 * n);
    DecodePieces(n, i + 3 * n, i + 3 * n, i + 4 * n, i + 5 * n);
    DecodePieces(n, i + 6 * n, i + 6 * n, i + 7 * n, i + 8 * n);
  }

  lemma DecodeSlices(n: nat, i: nat)
    ensures var d := DecodeBlock(n, i);
      && |d| == 75
      && d[0..2] == [CX(Wire(i), Wire(i + n)), CX(Wire(i), Wire(i + 2 * n))]
      && d[2..18] == Toffoli(i + n, i + 2 * n, i)
      && d[18..20] == [CX(Wire(i + 3 * n), Wire(i + 4 * n)), CX(Wire(i + 3 * n), Wire(i + 5 * n))]
      && d[20..36] == Toffoli(i + 4 * n, i + 5 * n, i + 3 * n)
      && d[36..38] == [CX(Wire(i + 6 * n), Wire(i + 7 * n)), CX(Wire(i + 6 * n), Wire(i + 8 * n))]
      && d[38..54] == Toffoli(i + 7 * n, i + 8 * n, i + 6 * n)
      && d[54..57] == [G1(H, i), G1(H, i + 3 * n), G1(H, i + 6 * n)]
      && d[57..59] == [CX(Wire(i), Wire(i + 3 * n)), CX(Wire(i), Wire(i + 6 * n))]
      && d[59..75] == Toffoli(i + 3 * n, i + 6 * n, i)
  {
    DecodeInnerSlices(n, i);
    DecodeOuterSlices(n, i);
  }

  /** The three inner repetition decoders at the front of a decoding block. */
  lemma DecodeInnerSlices(n: nat, i: nat)
    ensures var d := DecodeBlock(n, i);
      && |d| == 75
      && d[0..2] == [CX(Wire(i), Wire(i + n)), CX(Wire(i), Wire(i + 2 * n))]
      && d[2..18] == Toffoli(i + n, i + 2 * n, i)
      && d[18..20] == [CX(Wire(i + 3 * n), Wire(i + 4 * n)), CX(Wire(i + 3 * n), Wire(i + 5 * n))]
      && d[20..36] == Toffoli(i + 4 * n, i + 5 * n, i + 3 * n)
      && d[36..38] == [CX(Wire(i + 6 * n), Wire(i + 7 * n)), CX(Wire(i + 6 * n), Wire(i + 8 * n))]
      && d[38..54] == Toffoli(i + 7 * n, i + 8 * n, i + 6 * n)
  {
    DecodeHeadSlices(n, i, 0, i, i + n, i + 2 * n);
    DecodeHeadSlices(n, i, 18, i + 3 * n, i + 4 * n, i + 5 * n);
    DecodeHeadSlices(n, i, 36, i + 6 * n, i + 7 * n, i + 8 * n);
  }

  /** The inner repetition decoder of head `h`, at offset `lo` of the
      decoding block. */
  lemma DecodeHeadSlices(n: nat, i: nat, lo: nat, h: nat, a: nat, b: nat)
    requires (lo == 0 && h == i) || (lo == 18 && h == i + 3 * n) || (lo == 36 && h == i + 6 * n)
    requires a == h + n && b == h + 2 * n
    ensures var d := DecodeBlock(n, i);
      && |d| == 75
      && d[lo..lo + 2] == [CX(Wire(h), Wire(a)), CX(Wire(h), Wire(b))]
      && d[lo + 2..lo + 18] == Toffoli(a, b, h)
  {
    DecodePieceAt(n, i);
    RepairSlice(DecodeBlock(n, i), lo, n, h, a, b);
  }

  /** The Hadamard layer and the outer repetition decoder at the back of a
      decoding block. */
  lemma DecodeOuterSlices(n: nat, i: nat)
    ensures var d := DecodeBlock(n, i);
      && |d| == 75
      && d[54..57] == [G1(H, i), G1(H, i + 3 * n), G1(H, i + 6 * n)]
      && d[57..59] == [CX(Wire(i), Wire(i + 3 * n)), CX(Wire(i), Wire(i + 6 * n))]
      && d[59..75] == Toffoli(i + 3 * n, i + 6 * n, i)
  {
    DecodePieceAt(n, i);
    var d := DecodeBlock(n, i);
    RepairSlice(d, 57, 3 * n, i, i + 3 * n, i + 6 * n);
  }

  /** Where the five pieces of a decoding block sit. */
  lemma DecodePieceAt(n: nat, i: nat)
    ensures var d := DecodeBlock(n, i);
      && |d| == 75
      && d[0..18] == Q3Shor.DecodeBlock(n, i)
      && d[18..36] == Q3Shor.DecodeBlock(n, i + 3 * n)
      && d[36..54] == Q3Shor.DecodeBlock(n, i + 6 * n)
      && d[54..57] == HeadLayer(n, i)
      && d[57..75] == Q3Shor.DecodeBlock(3 * n, i)
  {
    var da, db, dc, dout := Q3Shor.DecodeBlock(n, i), Q3Shor.DecodeBlock(n, i + 3 * n),
      Q3Shor.DecodeBlock(n, i + 6 * n), Q3Shor.DecodeBlock(3 * n, i);
    Q3Shor.BlockCounts(n, i);
    Q3Shor.BlockCounts(n, i + 3 * n);
    Q3Shor.BlockCounts(n, i + 6 * n);
    Q3Shor.BlockCounts(3 * n, i);
    FivePieces(da, db, dc, HeadLayer(n, i), dout);
  }

  /** A repetition decoding block found at `lo` in `d`, read back as its
      two CNOTs and its Toffoli. */
  lemma RepairSlice(d: seq<Op>, lo: nat, n: nat, h: nat, a: nat, b: nat)
    requires a == h + n && b == h + 2 * n
    requires lo + 18 <= |d| && d[lo..lo + 18] == Q3Shor.DecodeBlock(n, h)
    ensures d[lo..lo + 2] == [CX(Wire(h), Wire(a)), CX(Wire(h), Wire(b))]
    ensures d[lo + 2..lo + 18] == Toffoli(a, b, h)
  {
    DecodePieces(n, h, h, a, b);
    SubSlice(d, lo, lo + 18, 2);
  }

  /** The repetition decoding block of head `h` with partners `a` and `b`
      is their two CNOTs, which are the repetition encoding block, then the
      Toffoli correcting `h`. */
  lemma DecodePieces(n: nat, i: nat, h: nat, a: nat, b: nat)
    requires h == i && a == i + n && b == i + 2 * n
    ensures var d := Q3Shor.DecodeBlock(n, i);
      && |d| == 18
      && d[..2] == Q3Shor.EncodeBlock(n, i) == [CX(Wire(h), Wire(a)), CX(Wire(h), Wire(b))]
      && d[2..] == Toffoli(a, b, h)
  {
  }

  /** Slicing a slice. */
  lemma SubSlice(s: seq<Op>, lo: nat, hi: nat, k: nat)
    requires lo <= lo + k <= hi <= |s|
    ensures s[lo..hi][..k] == s[lo..lo + k] && s[lo..hi][k..] == s[lo + k..hi]
  {
  }

  /** The encoding is `11n` gates, eight of them CNOTs per logical qubit;
      the decoding is `75n` gates, thirty-two of them CNOTs per logical
      qubit (two per head and the four Toffolis' six each). */
  lemma Counts(n: nat)
    ensures |Encode(n)| == 11 * n && CountCX(Encode(n)) == 8 * n
    ensures |Decode(n)| == 75 * n && CountCX(Decode(n)) == 32 * n
  {
    forall i: nat
      ensures |EncodeBody(n)(i)| == 11 && CountCX(EncodeBody(n)(i)) == 8
    {
      EncodeBlockCounts(n, i);
    }
    forall i: nat
      ensures |DecodeBody(n)(i)| == 75 && CountCX(DecodeBody(n)(i)) == 32
    {
      DecodeBlockCounts(n, i);
    }
    LoopChunks(n, EncodeBody(n), 11);
    LoopChunks(n, DecodeBody(n), 75);
    LoopCountCX(n, EncodeBody(n), 8);
    LoopCountCX(n, DecodeBody(n), 32);
  }

  /** CNOT counts of a five-piece concatenation add up. */
  lemma CountFive(a: seq<Op>, b: seq<Op>, c: seq<Op>, d: seq<Op>, e: seq<Op>)
    ensures CountCX(a + b + c + d + e) == CountCX(a) + CountCX(b) + CountCX(c) + CountCX(d) + CountCX(e)
  {
    CountCXAppend(a, b);
    CountCXAppend(a + b, c);
    CountCXAppend(a + b + c, d);
    CountCXAppend(a + b + c + d, e);
  }

  /** The head layer holds no CNOT. */
  lemma HeadLayerCount(n: nat, i: nat)
    ensures CountCX(HeadLayer(n, i)) == 0
  {
    NoCnots(HeadLayer(n, i));
  }

  lemma EncodeBlockCounts(n: nat, i: nat)
    ensures |EncodeBlock(n, i)| == 11 && CountCX(EncodeBlock(n, i)) == 8
  {
    Q3Shor.BlockCounts(3 * n, i);
    Q3Shor.BlockCounts(n, i);
    Q3Shor.BlockCounts(n, i + 3 * n);
    Q3Shor.BlockCounts(n, i + 6 * n);
    HeadLayerCount(n, i);
    CountFive(Q3Shor.EncodeBlock(3 * n, i), HeadLayer(n, i), Q3Shor.EncodeBlock(n, i),
      Q3Shor.EncodeBlock(n, i + 3 * n), Q3Shor.EncodeBlock(n, i + 6 * n));
  }

  lemma DecodeBlockCounts(n: nat, i: nat)
    ensures |DecodeBlock(n, i)| == 75 && CountCX(DecodeBlock(n, i)) == 32
  {
    Q3Shor.BlockCounts(n, i);
    Q3Shor.BlockCounts(n, i + 3 * n);
    Q3Shor.BlockCounts(n, i + 6 * n);
    Q3Shor.BlockCounts(3 * n, i);
    HeadLayerCount(n, i);
    CountFive(Q3Shor.DecodeBlock(n, i), Q3Shor.DecodeBlock(n, i + 3 * n), Q3Shor.DecodeBlock(n, i + 6 * n),
      HeadLayer(n, i), Q3Shor.DecodeBlock(3 * n, i));
  }

  /** The encoding and decoding loops are the blocks of the logical qubits
      in increasing order. */
  lemma Layout(n: nat)
    ensures |Encode(n)| == 11 * n && |Decode(n)| == 75 * n
    ensures forall i: nat :: i < n ==>
      && 11 * i + 11 <= |Encode(n)| && 75 * i + 75 <= |Decode(n)|
      && Chunk(Encode(n), 11, i) == EncodeBlock(n, i)
      && Chunk(Decode(n), 75, i) == DecodeBlock(n, i)
  {
    forall i: nat
      ensures |EncodeBody(n)(i)| == 11 && |DecodeBody(n)(i)| == 75
    {
      EncodeBlockCounts(n, i);
      DecodeBlockCounts(n, i);
    }
    LoopChunks(n, EncodeBody(n), 11);
    LoopChunks(n, DecodeBody(n), 75);
  }

  // ---------------------------------------------------------------------
  // Support

  /** Within the index width, every gate for logical qubit `i` touches only
      its nine copies. */
  lemma BlockSupport(n: nat, i: nat)
    requires 9 * n <= ShortRange && i < n
    ensures Within(EncodeBlock(n, i), Block(n, 9, i))
    ensures Within(DecodeBlock(n, i), Block(n, 9, i))
  {
    NineCopies(n, i);
    HeadsSupport(n, i, Block(n, 9, i));
  }

  lemma HeadsSupport(n: nat, i: nat, nine: set<nat>)
    requires 9 * n <= ShortRange && i < n
    requires i in nine && i + n in nine && i + 2 * n in nine
    requires i + 3 * n in nine && i + 3 * n + n in nine && i + 3 * n + 2 * n in nine
    requires i + 6 * n in nine && i + 6 * n + n in nine && i + 6 * n + 2 * n in nine
    requires i + 2 * (3 * n) in nine && Within(HeadLayer(n, i), nine)
    ensures Within(EncodeBlock(n, i), nine)
    ensures Within(DecodeBlock(n, i), nine)
  {
    HeadSupport(n, i, nine);
    HeadSupport(n, i + 3 * n, nine);
    HeadSupport(n, i + 6 * n, nine);
    HeadSupport(3 * n, i, nine);
    WithinConcat(Q3Shor.EncodeBlock(3 * n, i), HeadLayer(n, i), nine);
    WithinConcat(Q3Shor.EncodeBlock(3 * n, i) + HeadLayer(n, i), Q3Shor.EncodeBlock(n, i), nine);
    WithinConcat(Q3Shor.EncodeBlock(3 * n, i) + HeadLayer(n, i) + Q3Shor.EncodeBlock(n, i),
      Q3Shor.EncodeBlock(n, i + 3 * n), nine);
    WithinConcat(Q3Shor.EncodeBlock(3 * n, i) + HeadLayer(n, i) + Q3Shor.EncodeBlock(n, i) + Q3Shor.EncodeBlock(n, i + 3 * n),
      Q3Shor.EncodeBlock(n, i + 6 * n), nine);
    WithinConcat(Q3Shor.DecodeBlock(n, i), Q3Shor.DecodeBlock(n, i + 3 * n), nine);
    WithinConcat(Q3Shor.DecodeBlock(n, i) + Q3Shor.DecodeBlock(n, i + 3 * n), Q3Shor.DecodeBlock(n, i + 6 * n), nine);
    WithinConcat(Q3Shor.DecodeBlock(n, i) + Q3Shor.DecodeBlock(n, i + 3 * n) + Q3Shor.DecodeBlock(n, i + 6 * n),
      HeadLayer(n, i), nine);
    WithinConcat(Q3Shor.DecodeBlock(n, i) + Q3Shor.DecodeBlock(n, i + 3 * n) + Q3Shor.DecodeBlock(n, i + 6 * n) + HeadLayer(n, i),
      Q3Shor.DecodeBlock(3 * n, i), nine);
  }

  /** The nine copies of logical qubit `i`, and the head layer on them. */
  lemma NineCopies(n: nat, i: nat)
    ensures var nine := Block(n, 9, i);
      && i in nine && i + n in nine && i + 2 * n in nine
      && i + 3 * n in nine && i + 4 * n in nine && i + 5 * n in nine
      && i + 6 * n in nine && i + 7 * n in nine && i + 8 * n in nine
      && i + 3 * n + n in nine && i + 3 * n + 2 * n in nine
      && i + 6 * n + n in nine && i + 6 * n + 2 * n in nine
      && i + 2 * (3 * n) in nine
      && Within(HeadLayer(n, i), nine)
  {
    var nine := Block(n, 9, i);
    assert Copy(n, i, 0) in nine && Copy(n, i, 1) in nine && Copy(n, i, 2) in nine;
    assert Copy(n, i, 3) in nine && Copy(n, i, 4) in nine && Copy(n, i, 5) in nine;
    assert Copy(n, i, 6) in nine && Copy(n, i, 7) in nine && Copy(n, i, 8) in nine;
  }

  /** The repetition blocks of a head lie among the nine copies when the
      head's three copies do. */
  lemma HeadSupport(m: nat, h: nat, nine: set<nat>)
    requires h + 2 * m < ShortRange
    requires h in nine && h + m in nine && h + 2 * m in nine
    ensures Within(Q3Shor.EncodeBlock(m, h), nine) && Within(Q3Shor.DecodeBlock(m, h), nine)
  {
    Q3Shor.BlockSupport(m, h);
    Q3Shor.BlockHasCopies(m, h);
  }

  /** Within the index width, the encoding and the decoding of logical
      qubit `i` stay inside its nine copies, and so below `9n`; the
      nine-copy blocks of distinct logical qubits are disjoint. */
  lemma Support(n: nat, i: nat)
    requires i < n && 9 * n <= ShortRange
    ensures |Encode(n)| == 11 * n && |Decode(n)| == 75 * n
    ensures Within(Chunk(Encode(n), 11, i), Block(n, 9, i))
    ensures Within(Chunk(Decode(n), 75, i), Block(n, 9, i))
    ensures forall q :: q in Block(n, 9, i) ==> q < 9 * n
    ensures forall i' :: 0 <= i' < n && i' != i ==> Block(n, 9, i) !! Block(n, 9, i')
  {
    Layout(n);
    BlockSupport(n, i);
    BlockBelow(n, 9, i);
    forall i' | 0 <= i' < n && i' != i
      ensures Block(n, 9, i) !! Block(n, 9, i')
    {
      BlocksDisjoint(n, 9, i, i');
    }
  }

  /** Within the index width, the whole code stays in the `9n` register. */
  lemma InRegister(n: nat)
    requires 9 * n <= ShortRange
    ensures Bounded(Encode(n), 9 * n) && Bounded(Decode(n), 9 * n)
  {
    forall k: nat | k < n
      ensures Bounded(EncodeBlock(n, k), 9 * n) && Bounded(DecodeBlock(n, k), 9 * n)
    {
      BlockSupport(n, k);
      BlockBelow(n, 9, k);
    }
    forall op | op in Encode(n)
      ensures OpBelow(op, 9 * n)
    {
      LoopMember(n, EncodeBody(n), op);
    }
    forall op | op in Decode(n)
      ensures OpBelow(op, 9 * n)
    {
      LoopMember(n, DecodeBody(n), op);
    }
  }
}
